/** What an accepted close of a cycle leaves behind, in the terms of the ledger and of the
    statements themselves: who is billed, what for, and what each statement earns. */
module BooksCloseEffects {
  import opened Outcomes
  import opened Calendar
  import opened Ranges
  import opened Commission
  import opened CommissionEffects
  import opened Ledger
  import opened Books
  import opened BooksInvariants
  import opened BooksClosing

  // ---- what a close is ---------------------------------------------------------

  ghost predicate HasEntry(es: seq<Entry>, customer: nat, k: nat) {
    exists e :: 0 <= e < |es| && es[e].cycle <= k && es[e].customer == customer
  }

  ghost predicate IsBilled(ss: seq<Statement>, n: nat, customer: nat) {
    exists i :: n <= i < |ss| && ss[i].customer == customer
  }

  /** One new statement for everybody with an entry up to the cycle and for nobody else,
      each presenting its slice of the ledger. */
  ghost predicate Bills(b: Books, x: Books, k: nat) {
    |b.statements| <= |x.statements| && x.statements[..|b.statements|] == b.statements
    && (forall i :: |b.statements| <= i < |x.statements| ==>
          var s := x.statements[i];
          s.cycle == k && s.version == b.nextVersion + (i - |b.statements|) && StatementOk(b.ledger, s)
          && HasEntry(b.ledger, s.customer, k))
    && (forall i, j :: |b.statements| <= i < j < |x.statements| ==>
          x.statements[i].customer != x.statements[j].customer)
    && (forall c: nat :: HasEntry(b.ledger, c, k) ==> IsBilled(x.statements, |b.statements|, c))
  }

  /** Under a plan on the billed value in force on that day, each of the statements from
      position `n` on has its one event, on its charges and service adjustments. Every other
      event is one that was there before, and without such a plan no event is added. */
  ghost predicate EarnsOnBilled(t: Earnings, t': Earnings, ss: seq<Statement>, n: nat, on: Date)
    requires n <= |ss|
  {
    t'.plans == t.plans && t'.adjustments == t.adjustments
    && if SomePlanEarns(t.plans, OfStatement(0), on)
       then |t'.events| == |t.events| + |ss| - n && t'.events[..|t.events|] == t.events
            && forall i :: n <= i < |ss| ==>
                 IsEventFor(t.plans, t'.events[|t.events| + i - n], OfStatement(i),
                            ss[i].charges + ss[i].serviceAdjustments, on)
       else t'.events == t.events
  }

  /** The newest cycle is closed once its period has ended; the ledger and the documents
      stand. */
  ghost predicate Closes(b: Books, x: Books, k: nat) {
    k == |b.cycles| - 1 && b.cycles[k].open && b.cycles[k].period.end.Key() < b.today.Key()
    && x.cycles == b.cycles[..k] + [Cycle(b.cycles[k].period, false)]
    && x.customers == b.customers && x.today == b.today && x.startDay == b.startDay
    && x.records == b.records && x.payments == b.payments && x.ledger == b.ledger
    && Bills(b, x, k)
    && EarnsOnBilled(b.earnings, x.earnings, x.statements, |b.statements|, b.cycles[k].period.end)
    && x.nextVersion == b.nextVersion + |x.statements| - |b.statements|
  }

  // ---- commission --------------------------------------------------------------

  lemma SamePlanEarns(plans: seq<Plan>, s: nat, on: Date)
    ensures SomePlanEarns(plans, OfStatement(s), on) <==> SomePlanEarns(plans, OfStatement(0), on)
  {
    if p: nat :| InForce(plans, p, on) && EarnsOn(plans[p].terms, OfStatement(s)) {
      assert EarnsOn(plans[p].terms, OfStatement(0));
    }
    if p: nat :| InForce(plans, p, on) && EarnsOn(plans[p].terms, OfStatement(0)) {
      assert EarnsOn(plans[p].terms, OfStatement(s));
    }
  }

  ghost predicate Unearned(events: seq<Event>, n: nat) {
    forall k :: 0 <= k < |events| && events[k].source.OfStatement? ==> events[k].source.id < n
  }

  lemma NextIsUnearned(events: seq<Event>, n: nat)
    requires Unearned(events, n)
    ensures FindEvent(events, OfStatement(n)).None?
  {
  }

  lemma GainedKeepsUnearned(t: Earnings, t': Earnings, n: nat, base: int, on: Date)
    requires Unearned(t.events, n) && GainsEvent(t, t', OfStatement(n), base, on)
    ensures Unearned(t'.events, n + 1)
  {
    forall k | 0 <= k < |t'.events| && t'.events[k].source.OfStatement? ensures t'.events[k].source.id < n + 1 {
      if k < |t.events| {
        assert t'.events[k] == t'.events[..|t.events|][k];
      }
    }
  }

  /** One statement more. */
  lemma {:induction false} OneMoreEarns(t: Earnings, u: Earnings, t': Earnings, ss: seq<Statement>, n: nat, on: Date)
    requires n < |ss| && EarnsOnBilled(t, u, ss[..|ss| - 1], n, on)
    requires GainsEvent(u, t', OfStatement(|ss| - 1), ss[|ss| - 1].charges + ss[|ss| - 1].serviceAdjustments, on)
    ensures EarnsOnBilled(t, t', ss, n, on)
  {
    var last := |ss| - 1;
    SamePlanEarns(t.plans, last, on);
    if SomePlanEarns(t.plans, OfStatement(0), on) {
      assert t'.events[..|t.events|] == u.events[..|t.events|];
      forall i | n <= i < |ss|
        ensures IsEventFor(t.plans, t'.events[|t.events| + i - n], OfStatement(i),
                           ss[i].charges + ss[i].serviceAdjustments, on)
      {
        if i < last {
          assert ss[..last][i] == ss[i];
          assert t'.events[|t.events| + i - n] == t'.events[..|u.events|][|t.events| + i - n];
        }
      }
    }
  }

  lemma {:induction false} StatementsEarn(t: Earnings, ss: seq<Statement>, n: nat, on: Date)
    requires Ordered(t.plans) && n <= |ss| && Unearned(t.events, n)
    ensures EarnsOnBilled(t, EarnOnStatements(t, ss, n, on), ss, n, on)
    ensures Unearned(EarnOnStatements(t, ss, n, on).events, |ss|)
    decreases |ss|
  {
    if n < |ss| {
      var last := |ss| - 1;
      var u := EarnOnStatements(t, ss[..last], n, on);
      StatementsEarn(t, ss[..last], n, on);
      NextIsUnearned(u.events, last);
      StatementGains(u, last, Billed(ss[last]), on);
      GainedKeepsUnearned(u, OnStatementIssued(u, last, Billed(ss[last]), on), last, Billed(ss[last]), on);
      OneMoreEarns(t, u, OnStatementIssued(u, last, Billed(ss[last]), on), ss, n, on);
    }
  }

  lemma {:induction false} OldStatementsEarned(b: Books)
    requires EarningsOk(b)
    ensures Unearned(b.earnings.events, |b.statements|)
  {
    forall k | 0 <= k < |b.earnings.events| && b.earnings.events[k].source.OfStatement?
      ensures b.earnings.events[k].source.id < |b.statements|
    {
      assert EventHolds(b.records, b.payments, BilledValues(b.statements), b.earnings, k);
    }
  }

  // ---- statements --------------------------------------------------------------

  lemma {:induction false} IssuedVersions(b: Books, k: nat, cs: seq<nat>, x: Books)
    requires k < |b.cycles| && IssueStatements(b, k, cs) == Ok(x)
    ensures x.nextVersion == b.nextVersion + |cs|
    ensures |x.statements| == |b.statements| + |cs|
    ensures forall i :: |b.statements| <= i < |x.statements| ==>
              x.statements[i].version == b.nextVersion + (i - |b.statements|)
  {
    if cs != [] {
      IssuedVersions(b, k, cs[..|cs| - 1], IssueStatements(b, k, cs[..|cs| - 1]).value);
    }
  }

  lemma {:induction false} BillsEverybody(b: Books, x: Books, k: nat, cs: seq<nat>)
    requires IssuedFor(b.ledger, b.statements, k, cs, x.statements) && Distinct(cs)
    requires forall c :: c in cs <==> HasEntry(b.ledger, c, k)
    requires forall i :: |b.statements| <= i < |x.statements| ==>
               x.statements[i].version == b.nextVersion + (i - |b.statements|)
    ensures Bills(b, x, k)
  {
    var n := |b.statements|;
    forall i | n <= i < |x.statements| ensures HasEntry(b.ledger, x.statements[i].customer, k) {
      assert cs[i - n] in cs;
    }
    forall c: nat | HasEntry(b.ledger, c, k) ensures IsBilled(x.statements, n, c) {
      var j :| 0 <= j < |cs| && cs[j] == c;
      assert x.statements[n + j].customer == cs[j];
    }
    assert x.statements[..n] == b.statements;
  }

  lemma {:induction false} BillableIsEverybody(b: Books, k: nat, c: nat)
    requires k < |b.cycles| && CyclesUpTo(b.cycles, b.cycles[k].period.start) == Below(k + 1)
    ensures c in Billable(b, k) <==> HasEntry(b.ledger, c, k)
  {
  }

  lemma {:induction false} ClosingIssues(b: Books, k: nat, x: Books)
    requires Inv(b) && Closable(b, k) && BillCycle(WithClosed(b, k), k) == Ok(x)
    ensures |x.statements| == |b.statements| + |Billable(WithClosed(b, k), k)|
    ensures x.nextVersion == b.nextVersion + |x.statements| - |b.statements|
    ensures forall i :: |b.statements| <= i < |x.statements| ==>
              x.statements[i].version == b.nextVersion + (i - |b.statements|)
  {
    var closed := WithClosed(b, k);
    IssuedVersions(closed, k, Billable(closed, k), IssueStatements(closed, k, Billable(closed, k)).value);
  }

  lemma {:induction false} BillsTheClosed(b: Books, k: nat, x: Books, cs: seq<nat>, closed: Books)
    requires k < |b.cycles| && closed == WithClosed(b, k) && cs == Billable(closed, k)
    requires CyclesOk(closed.today, closed.startDay, closed.cycles)
    requires IssuedFor(b.ledger, b.statements, k, cs, x.statements)
    requires forall i :: |b.statements| <= i < |x.statements| ==>
               x.statements[i].version == b.nextVersion + (i - |b.statements|)
    ensures Bills(b, x, k)
  {
    CyclesByDate(closed.today, closed.startDay, closed.cycles, k);
    forall c: nat ensures c in cs <==> HasEntry(b.ledger, c, k) {
      BillableIsEverybody(closed, k, c);
    }
    BillsEverybody(b, x, k, cs);
  }

  lemma {:induction false} ClosingBills(b: Books, k: nat)
    requires Inv(b) && Closable(b, k)
    ensures var r := BillCycle(WithClosed(b, k), k);
            r.Ok? && Bills(b, r.value, k)
            && r.value.nextVersion == b.nextVersion + |r.value.statements| - |b.statements|
  {
    var closed := WithClosed(b, k);
    BillingKeeps(b, k);
    ClosedCyclesOk(b, k);
    ClosingIssues(b, k, BillCycle(closed, k).value);
    BillsTheClosed(b, k, BillCycle(closed, k).value, Billable(closed, k), closed);
  }

  lemma {:induction false} ClosingEarns(b: Books, k: nat)
    requires Inv(b) && Closable(b, k)
    ensures var r := BillCycle(WithClosed(b, k), k);
            r.Ok? && |b.statements| <= |r.value.statements|
            && EarnsOnBilled(b.earnings, r.value.earnings, r.value.statements, |b.statements|, b.cycles[k].period.end)
  {
    BillingKeeps(b, k);
    var ss := BillCycle(WithClosed(b, k), k).value.statements;
    OldStatementsEarned(b);
    StatementsEarn(b.earnings, ss, |b.statements|, b.cycles[k].period.end);
  }

  lemma {:induction false} CloseLeaves(b: Books, k: nat, x: Books)
    requires Inv(b) && CloseCycle(b, k) == Outcome(x, None)
    ensures Closes(b, x, k)
  {
    ClosedCyclesOk(b, k);
    ClosingBills(b, k);
    ClosingEarns(b, k);
    BillingKeeps(b, k);
    ClosesBy(b, x, k);
  }

  lemma {:induction false} ClosesBy(b: Books, x: Books, k: nat)
    requires k == |b.cycles| - 1 && Closable(b, k) && Bills(b, x, k)
    requires EarnsOnBilled(b.earnings, x.earnings, x.statements, |b.statements|, b.cycles[k].period.end)
    requires x.nextVersion == b.nextVersion + |x.statements| - |b.statements|
    requires x == WithClosed(b, k).(statements := x.statements, nextVersion := x.nextVersion, earnings := x.earnings)
    ensures Closes(b, x, k)
  {
  }
}
