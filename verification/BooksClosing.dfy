/** Closing a cycle: what the statements say, and that closing keeps the invariant. */
module BooksClosing {
  import opened Outcomes
  import opened Calendar
  import opened Records
  import opened Payments
  import opened Commission
  import opened Ledger
  import opened Books
  import opened BooksInvariants

  // ---- cycles by date are cycles by position -----------------------------------

  lemma {:induction false} CyclesByDate(today: Date, startDay: StartDay, cycles: seq<Cycle>, k: nat)
    requires CyclesOk(today, startDay, cycles) && k < |cycles|
    ensures CyclesBefore(cycles, cycles[k].period.start) == Below(k)
    ensures CyclesUpTo(cycles, cycles[k].period.start) == Below(k + 1)
  {
    forall i | 0 <= i < |cycles|
      ensures cycles[i].period.start.Key() < cycles[k].period.start.Key() <==> i < k
      ensures cycles[i].period.start.Key() == cycles[k].period.start.Key() ==> i == k
    {
      assert i < k ==> cycles[i].period.end.Key() < cycles[k].period.start.Key();
      assert k < i ==> cycles[k].period.end.Key() < cycles[i].period.start.Key();
    }
  }

  // ---- carry-forward -----------------------------------------------------------

  /** No statement of the customer lies between cycle `m` and cycle `k`. */
  ghost predicate NothingBilledBetween(ss: seq<Statement>, customer: nat, m: int, k: nat) {
    forall i :: 0 <= i < |ss| && ss[i].customer == customer ==> !(m < ss[i].cycle < k)
  }

  /** Then the customer has no entry there either, and the balances coincide. */
  lemma {:induction false} SkippedCyclesAreEmpty(
      es: seq<Entry>, cycles: seq<Cycle>, ss: seq<Statement>, customer: nat, m: nat, k: nat)
    requires k <= |cycles| && m < k && BilledThrough(es, cycles, ss, k)
    requires forall i :: 0 <= i < k ==> !cycles[i].open
    requires NothingBilledBetween(ss, customer, m, k)
    ensures Sum(es, Some(customer), Some(Below(m + 1)), Whole) == Sum(es, Some(customer), Some(Below(k)), Whole)
  {
    forall i | 0 <= i < |es| && es[i].customer == customer && es[i].cycle < k ensures es[i].cycle <= m {
      assert !cycles[es[i].cycle].open;
      assert StatementKeyTaken(ss, es[i].customer, es[i].cycle);
    }
    SumDependsOnEntries(es, Some(customer), Below(m + 1), Below(k), Whole);
  }

  /** The state while the statements of cycle `k` are being issued. */
  ghost predicate OpeningKnown(b: Books, k: nat) {
    CyclesOk(b.today, b.startDay, b.cycles) && k < |b.cycles| && (forall i :: 0 <= i < k ==> !b.cycles[i].open)
    && BilledThrough(b.ledger, b.cycles, b.statements, k)
    && (forall i :: 0 <= i < |b.statements| ==>
          b.statements[i].cycle < |b.cycles| && StatementOk(b.ledger, b.statements[i]))
  }

  /** Both ways of computing an opening balance agree with the ledger: the previous
      statement's closing balance is carried forward over any number of skipped cycles. */
  lemma {:induction false} OpeningIsLedgerBalance(b: Books, customer: nat, k: nat)
    requires OpeningKnown(b, k)
    ensures OpeningBalance(b, customer, k) == Sum(b.ledger, Some(customer), Some(Below(k)), Whole)
    ensures OpeningBalance(b, customer, k)
            == Sum(b.ledger, Some(customer), Some(CyclesBefore(b.cycles, b.cycles[k].period.start)), Whole)
  {
    var start := b.cycles[k].period.start;
    CyclesByDate(b.today, b.startDay, b.cycles, k);
    var previous := PreviousStatement(b, customer, start, |b.statements|);
    if previous.Some? {
      var m := b.statements[previous.value].cycle;
      assert m in CyclesBefore(b.cycles, start);
      forall i | 0 <= i < |b.statements| && b.statements[i].customer == customer
        ensures !(m < b.statements[i].cycle < k)
      {
        LatestIsNewest(b, customer, k, previous.value, i);
      }
      SkippedCyclesAreEmpty(b.ledger, b.cycles, b.statements, customer, m, k);
    }
  }

  lemma {:induction false} CyclesStartInOrder(today: Date, startDay: StartDay, cycles: seq<Cycle>)
    requires CyclesOk(today, startDay, cycles)
    ensures forall i, j :: 0 <= i < j < |cycles| ==> cycles[i].period.start.Key() < cycles[j].period.start.Key()
  {
    forall i, j | 0 <= i < j < |cycles| ensures cycles[i].period.start.Key() < cycles[j].period.start.Key() {
      assert cycles[i].period.end.Key() < cycles[j].period.start.Key();
    }
  }

  lemma {:induction false} LatestIsNewest(b: Books, customer: nat, k: nat, s: nat, i: nat)
    requires OpeningKnown(b, k) && i < |b.statements| && b.statements[i].customer == customer
    requires PreviousStatement(b, customer, b.cycles[k].period.start, |b.statements|) == Some(s)
    ensures !(b.statements[s].cycle < b.statements[i].cycle < k)
  {
    var m, q := b.statements[s].cycle, b.statements[i].cycle;
    if q < k {
      CyclesStartInOrder(b.today, b.startDay, b.cycles);
      assert IsEarlierStatement(b, b.statements[i], customer, b.cycles[k].period.start);
    }
  }

  /** A drafted statement presents its slice of the ledger and balances. */
  lemma {:induction false} DraftIsRight(b: Books, k: nat, customer: nat)
    requires OpeningKnown(b, k) && AllWellFormed(b.ledger)
    ensures StatementOk(b.ledger, DraftStatement(b, k, customer))
    ensures var s := DraftStatement(b, k, customer); 0 <= s.charges && 0 <= s.payments && 0 <= s.paymentReversals
  {
    var c := Some(customer);
    OpeningIsLedgerBalance(b, customer, k);
    OutstandingIsGeneratedMinusCollected(b.ledger, c, Some({k}));
    assert Below(k + 1) == Below(k) + {k};
    SumSplitsCycles(b.ledger, c, Below(k), {k}, Whole);
    SignsOfParts(b.ledger, c, Some({k}));
  }

  // ---- issuing -----------------------------------------------------------------

  /** After `cs` have been billed for cycle `k` on top of the statements `ss`. */
  ghost predicate IssuedFor(es: seq<Entry>, ss: seq<Statement>, k: nat, cs: seq<nat>, issued: seq<Statement>) {
    |issued| == |ss| + |cs|
    && (forall i :: 0 <= i < |ss| ==> issued[i] == ss[i])
    && (forall i :: |ss| <= i < |issued| ==>
          issued[i].customer == cs[i - |ss|] && issued[i].cycle == k && StatementOk(es, issued[i]))
  }

  lemma {:induction false} StillKnown(b: Books, x: Books, k: nat, cs: seq<nat>)
    requires OpeningKnown(b, k) && IssuedFor(b.ledger, b.statements, k, cs, x.statements)
    requires x == b.(statements := x.statements, nextVersion := x.nextVersion)
    ensures OpeningKnown(x, k)
  {
    forall q, i | 0 <= q < k && q < |b.cycles| && !b.cycles[q].open && 0 <= i < |b.ledger| && b.ledger[i].cycle <= q
      ensures StatementKeyTaken(x.statements, b.ledger[i].customer, q)
    {
      assert StatementKeyTaken(b.statements, b.ledger[i].customer, q);
      var s :| 0 <= s < |b.statements| && b.statements[s].customer == b.ledger[i].customer
        && b.statements[s].cycle == q;
      assert x.statements[s] == b.statements[s];
    }
  }

  /** One more statement on top of those already issued. */
  lemma {:induction false} IssuingOne(b: Books, x: Books, k: nat, cs: seq<nat>)
    requires OpeningKnown(b, k) && AllWellFormed(b.ledger) && Distinct(cs) && cs != []
    requires forall i :: 0 <= i < |b.statements| ==> b.statements[i].cycle != k
    requires IssuedFor(b.ledger, b.statements, k, cs[..|cs| - 1], x.statements)
    requires x == b.(statements := x.statements, nextVersion := x.nextVersion)
    ensures var s := DraftStatement(x, k, cs[|cs| - 1]);
            IssueStatement(x, k, cs[|cs| - 1])
              == Ok(x.(statements := x.statements + [s], nextVersion := x.nextVersion + 1))
            && IssuedFor(b.ledger, b.statements, k, cs, x.statements + [s])
  {
    StillKnown(b, x, k, cs[..|cs| - 1]);
    DraftIsRight(x, k, cs[|cs| - 1]);
    NotYetBilled(b.ledger, b.statements, k, cs, x.statements);
  }

  /** Issuing never fails: no key is taken twice and no CHECK constraint can fire. */
  lemma {:induction false} IssuingSucceeds(b: Books, k: nat, cs: seq<nat>)
    requires OpeningKnown(b, k) && AllWellFormed(b.ledger) && Distinct(cs)
    requires forall i :: 0 <= i < |b.statements| ==> b.statements[i].cycle != k
    ensures var r := IssueStatements(b, k, cs);
            r.Ok? && IssuedFor(b.ledger, b.statements, k, cs, r.value.statements)
            && r.value == b.(statements := r.value.statements, nextVersion := b.nextVersion + |cs|)
  {
    if cs != [] {
      var before := cs[..|cs| - 1];
      IssuingSucceeds(b, k, before);
      IssuingOne(b, IssueStatements(b, k, before).value, k, cs);
    }
  }

  lemma {:induction false} NotYetBilled(
      es: seq<Entry>, ss: seq<Statement>, k: nat, cs: seq<nat>, issued: seq<Statement>)
    requires cs != [] && Distinct(cs) && IssuedFor(es, ss, k, cs[..|cs| - 1], issued)
    requires forall i :: 0 <= i < |ss| ==> ss[i].cycle != k
    ensures !StatementKeyTaken(issued, cs[|cs| - 1], k)
  {
    forall i | 0 <= i < |issued| ensures issued[i].customer != cs[|cs| - 1] || issued[i].cycle != k {
      if |ss| <= i {
        assert issued[i].customer == cs[..|cs| - 1][i - |ss|];
      }
    }
  }

  lemma {:induction false} IssuedStatementsOk(
      es: seq<Entry>, cycles: seq<Cycle>, ss: seq<Statement>, k: nat, cs: seq<nat>, issued: seq<Statement>)
    requires StatementsOk(es, cycles, ss) && k < |cycles| && !cycles[k].open
    requires IssuedFor(es, ss, k, cs, issued) && Distinct(cs)
    requires forall i :: 0 <= i < |ss| ==> ss[i].cycle != k
    ensures StatementsOk(es, cycles, issued)
  {
  }

  lemma {:induction false} IssuedIsComplete(
      es: seq<Entry>, cycles: seq<Cycle>, ss: seq<Statement>, k: nat, cs: seq<nat>, issued: seq<Statement>)
    requires BilledThrough(es, cycles, ss, k) && k == |cycles| - 1
    requires IssuedFor(es, ss, k, cs, issued)
    requires forall i :: 0 <= i < |es| && es[i].cycle <= k ==> es[i].customer in cs
    ensures BilledThrough(es, cycles, issued, |cycles|)
  {
    forall q, i | 0 <= q < |cycles| && !cycles[q].open && 0 <= i < |es| && es[i].cycle <= q
      ensures StatementKeyTaken(issued, es[i].customer, q)
    {
      if q < k {
        assert StatementKeyTaken(ss, es[i].customer, q);
        var s :| 0 <= s < |ss| && ss[s].customer == es[i].customer && ss[s].cycle == q;
        assert issued[s] == ss[s];
      } else {
        var j :| 0 <= j < |cs| && cs[j] == es[i].customer;
        assert issued[|ss| + j].customer == cs[j];
      }
    }
  }

  lemma {:induction false} EarningKeeps(
      rs: seq<Record>, ps: seq<Payment>, t: Earnings, ss: seq<Statement>, n: nat, periodEnd: Date)
    requires n <= |ss| && CommissionInv(rs, ps, BilledValues(ss[..n]), t)
    ensures CommissionInv(rs, ps, BilledValues(ss), EarnOnStatements(t, ss, n, periodEnd))
    ensures EarnOnStatements(t, ss, n, periodEnd).plans == t.plans
    decreases |ss|
  {
    if n == |ss| {
      assert ss[..n] == ss;
    } else {
      var last := |ss| - 1;
      assert ss[..last][..n] == ss[..n];
      EarningKeeps(rs, ps, t, ss[..last], n, periodEnd);
      StatementKeeps(rs, ps, BilledValues(ss[..last]), EarnOnStatements(t, ss[..last], n, periodEnd),
                     Billed(ss[last]), periodEnd);
    }
  }

  // ---- the whole command -------------------------------------------------------

  ghost predicate Closable(b: Books, k: nat) {
    k < |b.cycles| && b.cycles[k].open && b.cycles[k].period.end.Key() < b.today.Key()
  }

  lemma {:induction false} ClosedCyclesOk(b: Books, k: nat)
    requires CyclesOk(b.today, b.startDay, b.cycles) && Closable(b, k)
    ensures k == |b.cycles| - 1 && CyclesOk(b.today, b.startDay, WithClosed(b, k).cycles)
    ensures forall i :: 0 <= i <= k ==> !WithClosed(b, k).cycles[i].open
  {
    OpenCycleIsNewest(b.today, b.startDay, b.cycles, k);
  }

  lemma {:induction false} ClosedKeepsBilling(b: Books, k: nat)
    requires BillingOk(b) && Closable(b, k)
    ensures var closed := WithClosed(b, k);
            OpeningKnown(closed, k) && PostingOk(closed.ledger, closed.cycles)
            && StatementsOk(closed.ledger, closed.cycles, closed.statements)
            && forall i :: 0 <= i < |b.statements| ==> b.statements[i].cycle != k
  {
    ClosedCyclesOk(b, k);
  }


  /** The billing of a cycle just closed. */
  lemma {:induction false} BillingKeeps(b: Books, k: nat)
    requires Inv(b) && Closable(b, k)
    ensures var r := BillCycle(WithClosed(b, k), k);
            r.Ok? && BillingOk(r.value)
            && IssuedFor(b.ledger, b.statements, k, Billable(WithClosed(b, k), k), r.value.statements)
            && r.value == WithClosed(b, k).(statements := r.value.statements, nextVersion := r.value.nextVersion,
                                           earnings := r.value.earnings)
            && r.value.nextVersion == b.nextVersion + |Billable(WithClosed(b, k), k)|
            && r.value.earnings
               == EarnOnStatements(b.earnings, r.value.statements, |b.statements|, b.cycles[k].period.end)
  {
    var closed, cs := WithClosed(b, k), Billable(WithClosed(b, k), k);
    ClosedKeepsBilling(b, k);
    LedgerIsWellFormed(b);
    IssuingSucceeds(closed, k, cs);
    var issued := IssueStatements(closed, k, cs).value;
    IssuedStatementsOk(b.ledger, closed.cycles, b.statements, k, cs, issued.statements);
    EverybodyIsBillable(closed, k);
    ClosedCyclesOk(b, k);
    IssuedIsComplete(b.ledger, closed.cycles, b.statements, k, cs, issued.statements);
  }

  lemma {:induction false} LedgerIsWellFormed(b: Books)
    requires SourcesOk(b.ledger, b.records, b.payments)
    ensures AllWellFormed(b.ledger)
  {
    forall i | 0 <= i < |b.ledger| ensures WellFormed(b.ledger[i]) {
      assert EntryOk(b.records, b.payments, b.ledger[i]);
    }
  }

  lemma {:induction false} EverybodyIsBillable(b: Books, k: nat)
    requires CyclesOk(b.today, b.startDay, b.cycles) && k < |b.cycles|
    ensures forall i :: 0 <= i < |b.ledger| && b.ledger[i].cycle <= k ==> b.ledger[i].customer in Billable(b, k)
  {
    CyclesByDate(b.today, b.startDay, b.cycles, k);
    forall i | 0 <= i < |b.ledger| && b.ledger[i].cycle <= k ensures b.ledger[i].customer in Billable(b, k) {
      assert b.ledger[i].cycle in Below(k + 1);
    }
  }

  lemma {:induction false} DraftVersions(b: Books, k: nat, cs: seq<nat>)
    requires VersionsOk(b) && k < |b.cycles| && IssueStatements(b, k, cs).Ok?
    ensures VersionsOk(IssueStatements(b, k, cs).value)
  {
    if cs != [] {
      DraftVersions(b, k, cs[..|cs| - 1]);
    }
  }

  lemma {:induction false} BilledEarningsOk(b: Books, ss: seq<Statement>, periodEnd: Date)
    requires EarningsOk(b) && |b.statements| <= |ss| && forall i :: 0 <= i < |b.statements| ==> ss[i] == b.statements[i]
    ensures EarningsOk(b.(statements := ss, earnings := EarnOnStatements(b.earnings, ss, |b.statements|, periodEnd)))
  {
    assert ss[..|b.statements|] == b.statements;
    EarningKeeps(b.records, b.payments, b.earnings, ss, |b.statements|, periodEnd);
  }

  lemma {:induction false} BilledInv(b: Books, x: Books)
    requires Inv(b) && BillingOk(x) && VersionsOk(x) && EarningsOk(x)
    requires x.ledger == b.ledger && x.records == b.records && x.payments == b.payments && x.today == b.today
    ensures Inv(x)
  {
  }

  lemma {:induction false} CloseCycleKeeps(b: Books, k: nat)
    requires Inv(b)
    ensures Keeps(CloseCycle(b, k))
  {
    RefusalKeeps(b, 0);
    if Closable(b, k) {
      BillingKeeps(b, k);
      var x := BillCycle(WithClosed(b, k), k).value;
      DraftVersions(WithClosed(b, k), k, Billable(WithClosed(b, k), k));
      BilledEarningsOk(b, x.statements, b.cycles[k].period.end);
      BilledInv(b, x);
    }
  }
}
