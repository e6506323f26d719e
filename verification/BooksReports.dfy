/** Conservation of the reported figures: what has been billed is what was generated in
    the closed cycles, and statements carry the live balance forward. */
module BooksReports {
  import opened Outcomes
  import opened Calendar
  import opened Money
  import opened Records
  import opened Payments
  import opened Commission
  import opened Ledger
  import opened Books
  import opened BooksInvariants
  import opened BooksClosing
  import opened BooksRuns
  import opened BooksBalance

  /** Billed value: read from issued statements, not from the ledger. */
  function BilledTotal(ss: seq<Statement>, customer: Option<nat>): int {
    if ss == [] then 0
    else
      var last := ss[|ss| - 1];
      BilledTotal(ss[..|ss| - 1], customer)
      + if customer.None? || last.customer == customer.value then Billed(last) else 0
  }

  function CyclesWhere(cycles: seq<Cycle>, open: bool): (r: set<nat>)
    ensures forall i :: i in r <==> 0 <= i < |cycles| && cycles[i].open == open
  {
    set i: nat | i < |cycles| && cycles[i].open == open
  }

  /** Everything generated in closed cycles has been billed, and nothing else. */
  ghost predicate Conserved(b: Books, customer: Option<nat>) {
    BilledTotal(b.statements, customer) == Generated(b.ledger, customer, Some(CyclesWhere(b.cycles, false)))
  }

  // ---- posting commands --------------------------------------------------------

  /** The billing tables after a posting command: at most one more entry, in an open
      cycle. */
  ghost predicate Grew(b: Books, b2: Books) {
    b2.statements == b.statements && CyclesGrow(b.cycles, b2.cycles)
    && (b2.ledger == b.ledger
        || (|b2.ledger| == |b.ledger| + 1 && b2.ledger == b.ledger + [b2.ledger[|b.ledger|]]
            && b2.ledger[|b.ledger|].cycle < |b2.cycles| && b2.cycles[b2.ledger[|b.ledger|].cycle].open))
  }

  lemma {:induction false} SettleGrows(b: Books, b1: Books, p: Posting, earnings: Earnings, drawn: nat)
    requires CyclesOk(b.today, b.startDay, b.cycles)
    requires b1 == b.(records := b1.records, payments := b1.payments, nextVersion := b1.nextVersion)
    ensures Grew(b, Settle(b, PostEntry(b1, p), earnings, drawn).books)
  {
    EnsureOpenCycleKeeps(b1);
    if p.amount != 0 && PostEntry(b1, p).Ok? {
      var (ready, k) := EnsureOpenCycle(b1).value;
      assert PostEntry(b1, p).value.ledger == b.ledger + [p.AsEntry(k, b1.nextVersion)];
    }
  }

  lemma {:induction false} GrowthConserves(b: Books, b2: Books, customer: Option<nat>)
    requires Conserved(b, customer) && Grew(b, b2)
    ensures Conserved(b2, customer)
  {
    var closed := CyclesWhere(b.cycles, false);
    assert CyclesWhere(b2.cycles, false) == closed;
    if b2.ledger != b.ledger {
      var e := b2.ledger[|b.ledger|];
      SumAppend(b.ledger, e, customer, Some(closed), Charges);
      SumAppend(b.ledger, e, customer, Some(closed), ServiceAdjustments);
    }
  }

  lemma {:induction false} InsertRecordGrows(b: Books, record: Record)
    requires CyclesOk(b.today, b.startDay, b.cycles)
    ensures Grew(b, InsertRecord(b, record).books)
  {
    var b1 := WithRecord(b, record);
    SettleGrows(b, b1, ChargePosting(record, |b.records|), OnServiceRecorded(b.earnings, b1.records, |b.records|), 1);
  }

  lemma {:induction false} ReplaceRecordGrows(b: Books, i: nat, replacement: Record)
    requires CyclesOk(b.today, b.startDay, b.cycles) && i < |b.records|
    ensures Grew(b, ReplaceRecord(b, i, replacement).books)
  {
    var b1 := WithReplacement(b, i, replacement);
    SettleGrows(b, b1, AdjustmentPosting(b.records[i], i, replacement.charge),
                OnServiceCorrected(b.earnings, b1.records, i, |b.records|), 2);
  }

  lemma {:induction false} PostingGrows(b: Books, cmd: Command)
    requires CyclesOk(b.today, b.startDay, b.cycles) && IsPosting(cmd)
    ensures Grew(b, Apply(b, cmd).books)
  {
    match cmd
    case RecordServiceCmd(_, kind, quantity, date) =>
      if cmd.customer < |b.customers| && ResolveCharge(kind, quantity, b.customers[cmd.customer].unitPrice).Some? {
        var price := b.customers[cmd.customer].unitPrice;
        var (milli, charge) := ResolveCharge(kind, quantity, price).value;
        var on := if date.Some? then date.value else b.today;
        InsertRecordGrows(b, Record(cmd.customer, on, milli, price, charge, kind, Active, None, None, None,
                                    b.nextVersion));
      }
    case CorrectServiceCmd(i, kind, quantity, _) =>
      if i < |b.records| && ResolveCharge(kind, quantity, b.records[i].unitPrice).Some? {
        var (milli, charge) := ResolveCharge(kind, quantity, b.records[i].unitPrice).value;
        ReplaceRecordGrows(b, i, Replacement(b, i, kind, milli, charge));
      }
    case VoidServiceCmd(i, _) =>
      if i < |b.records| {
        SettleGrows(b, WithoutRecord(b, i), AdjustmentPosting(b.records[i], i, 0),
                    OnServiceVoided(b.earnings, WithoutRecord(b, i).records, i), 1);
      }
    case RecordPaymentCmd(_, amount, date) =>
      var on := if date.Some? then date.value else b.today;
      var payment := Payment(cmd.customer, amount, on, Recorded, b.nextVersion);
      SettleGrows(b, WithPayment(b, payment), PaymentPosting(payment, |b.payments|),
                  OnPaymentRecorded(b.earnings, WithPayment(b, payment).payments, |b.payments|), 1);
    case VoidPaymentCmd(p, _) =>
      if p < |b.payments| {
        SettleGrows(b, WithReversal(b, p), ReversalPosting(b.payments[p], p),
                    OnPaymentVoided(b.earnings, WithReversal(b, p).payments, p), 1);
      }
  }

  // ---- closing -----------------------------------------------------------------

  /** The new statements of a close bill each customer's slice of the cycle once. */
  lemma {:induction false} IssuedTotal(
      es: seq<Entry>, ss: seq<Statement>, k: nat, cs: seq<nat>, issued: seq<Statement>, customer: Option<nat>)
    requires IssuedFor(es, ss, k, cs, issued) && Distinct(cs)
    ensures BilledTotal(issued, customer)
            == BilledTotal(ss, customer)
               + match customer
                 case None => SumOver(es, cs, {k}, Charges) + SumOver(es, cs, {k}, ServiceAdjustments)
                 case Some(c) => if c in cs then Generated(es, customer, Some({k})) else 0
  {
    if cs == [] {
      assert issued == ss;
    } else {
      var last := |cs| - 1;
      var before := issued[..|issued| - 1];
      IssuedTotal(es, ss, k, cs[..last], before, customer);
      var s := issued[|issued| - 1];
      assert s.customer == cs[last] && Billed(s) == Generated(es, Some(cs[last]), Some({k}));
      if customer.Some? {
        assert customer.value in cs <==> customer.value in cs[..last] || customer.value == cs[last];
      }
    }
  }

  /** Those slices add up to the whole cycle, for one customer or for everybody. */
  lemma {:induction false} SlicesAreWhole(es: seq<Entry>, k: nat, cs: seq<nat>, customer: Option<nat>)
    requires Distinct(cs) && forall i :: 0 <= i < |es| && es[i].cycle <= k ==> es[i].customer in cs
    ensures (match customer
             case None => SumOver(es, cs, {k}, Charges) + SumOver(es, cs, {k}, ServiceAdjustments)
             case Some(c) => if c in cs then Generated(es, customer, Some({k})) else 0)
            == Generated(es, customer, Some({k}))
  {
    match customer
    case None =>
      SumOverEverybody(es, cs, {k}, Charges);
      SumOverEverybody(es, cs, {k}, ServiceAdjustments);
    case Some(c) =>
      if c !in cs {
        SumOfNothing(es, customer, {k}, Charges);
        SumOfNothing(es, customer, {k}, ServiceAdjustments);
      }
  }

  lemma {:induction false} ClosedBillsEverybody(b: Books, k: nat)
    requires CyclesOk(b.today, b.startDay, b.cycles) && Closable(b, k)
    ensures forall i :: 0 <= i < |b.ledger| && b.ledger[i].cycle <= k ==>
              b.ledger[i].customer in Billable(WithClosed(b, k), k)
  {
    ClosedCyclesOk(b, k);
    EverybodyIsBillable(WithClosed(b, k), k);
  }

  /** The statements issued for a cycle bill exactly what it generated. */
  lemma {:induction false} IssuedBillsTheCycle(
      es: seq<Entry>, ss: seq<Statement>, k: nat, cs: seq<nat>, issued: seq<Statement>, customer: Option<nat>)
    requires IssuedFor(es, ss, k, cs, issued) && Distinct(cs)
    requires forall i :: 0 <= i < |es| && es[i].cycle <= k ==> es[i].customer in cs
    ensures BilledTotal(issued, customer) == BilledTotal(ss, customer) + Generated(es, customer, Some({k}))
  {
    IssuedTotal(es, ss, k, cs, issued, customer);
    SlicesAreWhole(es, k, cs, customer);
  }

  /** The tables after a close, apart from its statements' contents. */
  ghost predicate ClosedAs(b: Books, k: nat, x: Books)
    requires k < |b.cycles|
  {
    x.ledger == b.ledger && x.cycles == WithClosed(b, k).cycles
    && IssuedFor(b.ledger, b.statements, k, Billable(WithClosed(b, k), k), x.statements)
  }

  lemma {:induction false} CloseEffect(b: Books, k: nat)
    requires Inv(b) && Closable(b, k)
    ensures ClosedAs(b, k, CloseCycle(b, k).books)
  {
    BillingKeeps(b, k);
  }

  lemma {:induction false} CloseConserves(b: Books, k: nat, customer: Option<nat>)
    requires Inv(b) && Closable(b, k) && Conserved(b, customer)
    ensures Conserved(CloseCycle(b, k).books, customer)
  {
    CloseEffect(b, k);
    ClosedBillsEverybody(b, k);
    ClosedConserves(b, k, CloseCycle(b, k).books, customer);
  }

  lemma {:induction false} ClosedConserves(b: Books, k: nat, x: Books, customer: Option<nat>)
    requires Closable(b, k) && Conserved(b, customer) && ClosedAs(b, k, x)
    requires forall i :: 0 <= i < |b.ledger| && b.ledger[i].cycle <= k ==>
               b.ledger[i].customer in Billable(WithClosed(b, k), k)
    ensures Conserved(x, customer)
  {
    IssuedBillsTheCycle(b.ledger, b.statements, k, Billable(WithClosed(b, k), k), x.statements, customer);
    ClosingAddsCycle(b, k, customer);
  }

  lemma {:induction false} ClosingAddsCycle(b: Books, k: nat, customer: Option<nat>)
    requires k < |b.cycles| && b.cycles[k].open
    ensures Generated(b.ledger, customer, Some(CyclesWhere(WithClosed(b, k).cycles, false)))
            == Generated(b.ledger, customer, Some(CyclesWhere(b.cycles, false)))
              + Generated(b.ledger, customer, Some({k}))
  {
    var closed := CyclesWhere(b.cycles, false);
    assert CyclesWhere(WithClosed(b, k).cycles, false) == closed + {k};
    SumSplitsCycles(b.ledger, customer, closed, {k}, Charges);
    SumSplitsCycles(b.ledger, customer, closed, {k}, ServiceAdjustments);
  }

  lemma {:induction false} ApplyConserves(b: Books, cmd: Command, customer: Option<nat>)
    requires Inv(b) && Conserved(b, customer)
    ensures Conserved(Apply(b, cmd).books, customer)
  {
    if IsPosting(cmd) {
      PostingGrows(b, cmd);
      GrowthConserves(b, Apply(b, cmd).books, customer);
    } else {
      OtherCommandConserves(b, cmd, customer);
    }
  }

  lemma {:induction false} OtherCommandConserves(b: Books, cmd: Command, customer: Option<nat>)
    requires Inv(b) && Conserved(b, customer) && !IsPosting(cmd)
    ensures Conserved(Apply(b, cmd).books, customer)
  {
    if cmd.CloseCycleCmd? && Closable(b, cmd.cycle) {
      CloseConserves(b, cmd.cycle, customer);
    }
  }

  lemma {:induction false} RunConserves(today: Date, startDay: StartDay, commands: seq<Command>, customer: Option<nat>)
    ensures Conserved(Run(today, startDay, commands), customer)
  {
    if commands == [] {
      assert Initial(today, startDay).statements == [];
    } else {
      var last := |commands| - 1;
      RunConserves(today, startDay, commands[..last], customer);
      RunKeeps(today, startDay, commands[..last]);
      ApplyConserves(Run(today, startDay, commands[..last]), commands[last], customer);
    }
  }

  // ---- the reported figures ----------------------------------------------------

  /** For each customer and for the tenant: what was billed plus what the open cycle
      has generated is everything generated; and in every scope outstanding is generated
      minus collected. */
  lemma {:induction false} FiguresReconcile(
      today: Date, startDay: StartDay, commands: seq<Command>, customer: Option<nat>, cycles: Option<set<nat>>)
    ensures var b := Run(today, startDay, commands);
            BilledTotal(b.statements, customer) + Generated(b.ledger, customer, Some(CyclesWhere(b.cycles, true)))
            == Generated(b.ledger, customer, None)
            && Outstanding(b.ledger, customer, cycles)
               == Generated(b.ledger, customer, cycles) - Collected(b.ledger, customer, cycles)
  {
    var b := Run(today, startDay, commands);
    RunKeeps(today, startDay, commands);
    RunConserves(today, startDay, commands, customer);
    LedgerIsWellFormed(b);
    OutstandingIsGeneratedMinusCollected(b.ledger, customer, cycles);
    GeneratedSplits(b.ledger, b.cycles, customer);
  }

  lemma {:induction false} GeneratedSplits(es: seq<Entry>, cycles: seq<Cycle>, customer: Option<nat>)
    requires PostingOk(es, cycles)
    ensures Generated(es, customer, None)
            == Generated(es, customer, Some(CyclesWhere(cycles, false)))
              + Generated(es, customer, Some(CyclesWhere(cycles, true)))
  {
    var closed, live := CyclesWhere(cycles, false), CyclesWhere(cycles, true);
    SumSplitsCycles(es, customer, closed, live, Charges);
    SumSplitsCycles(es, customer, closed, live, ServiceAdjustments);
    SumOfAllCycles(es, customer, closed + live, Charges);
    SumOfAllCycles(es, customer, closed + live, ServiceAdjustments);
  }

  // ---- statements --------------------------------------------------------------

  lemma {:induction false} NewStatementsCloseOnTheLedger(b: Books, k: nat, i: nat)
    requires Inv(b) && |b.statements| <= i < |CloseCycle(b, k).books.statements|
    ensures var s := CloseCycle(b, k).books.statements[i]; s.closing == Outstanding(b.ledger, Some(s.customer), None)
  {
    CloseEffect(b, k);
    ClosedCyclesOk(b, k);
    SumOfAllCycles(b.ledger, Some(CloseCycle(b, k).books.statements[i].customer), Below(k + 1), Whole);
  }

  /** At the moment of close each new statement's closing balance is the customer's live
      outstanding: active charges minus live payments. */
  lemma {:induction false} ClosingIsLiveOutstanding(
      today: Date, startDay: StartDay, commands: seq<Command>, b: Books, k: nat, i: nat)
    requires b == Run(today, startDay, commands)
    requires |b.statements| <= i < |CloseCycle(b, k).books.statements|
    ensures var s := CloseCycle(b, k).books.statements[i];
            s.closing == Outstanding(b.ledger, Some(s.customer), None)
            && s.closing == ActiveCharges(b.records, Some(s.customer)) - LivePayments(b.payments, Some(s.customer))
  {
    RunKeeps(today, startDay, commands);
    NewStatementsCloseOnTheLedger(b, k, i);
    RunBalances(today, startDay, commands, Some(CloseCycle(b, k).books.statements[i].customer));
  }

  /** Every opening is the closing of the customer's previous statement, however many
      cycles were skipped in between. */
  lemma {:induction false} OpeningIsPreviousClosing(
      today: Date, startDay: StartDay, commands: seq<Command>, i: nat, j: nat)
    requires var b := Run(today, startDay, commands);
             i < |b.statements| && j < |b.statements|
             && b.statements[i].customer == b.statements[j].customer && b.statements[i].cycle < b.statements[j].cycle
             && NothingBilledBetween(b.statements, b.statements[i].customer, b.statements[i].cycle,
                                     b.statements[j].cycle)
    ensures var b := Run(today, startDay, commands);
            b.statements[j].opening == b.statements[i].closing
  {
    var b := Run(today, startDay, commands);
    RunKeeps(today, startDay, commands);
    var m, k := b.statements[i].cycle, b.statements[j].cycle;
    SkippedCyclesAreEmpty(b.ledger, b.cycles, b.statements, b.statements[i].customer, m, k);
  }

  /** The first statement of a customer opens with the sum of all earlier cycles, and the
      two ways of computing an opening agree for every closed or open cycle. */
  lemma {:induction false} OpeningsAgree(
      today: Date, startDay: StartDay, commands: seq<Command>, customer: nat, k: nat)
    requires k < |Run(today, startDay, commands).cycles|
    ensures var b := Run(today, startDay, commands);
            OpeningBalance(b, customer, k)
            == Sum(b.ledger, Some(customer), Some(CyclesBefore(b.cycles, b.cycles[k].period.start)), Whole)
  {
    var b := Run(today, startDay, commands);
    RunKeeps(today, startDay, commands);
    OpeningsAreKnown(b, k);
    OpeningIsLedgerBalance(b, customer, k);
  }

  lemma {:induction false} OpeningsAreKnown(b: Books, k: nat)
    requires BillingOk(b) && k < |b.cycles|
    ensures OpeningKnown(b, k)
  {
    var newest := b.cycles[k];
  }

  // ---- cycles ------------------------------------------------------------------

  /** In every reachable state every cycle but the newest is closed, and the cycles are
      whole calendar periods that never overlap, in the order they were created. */
  lemma {:induction false} CyclesAreOrdered(today: Date, startDay: StartDay, commands: seq<Command>, i: nat, j: nat)
    requires i < j < |Run(today, startDay, commands).cycles|
    ensures var b := Run(today, startDay, commands);
            !b.cycles[i].open
            && b.cycles[i].period == PeriodBounds(startDay, b.cycles[i].period.start)
            && b.cycles[i].period.end.Key() < b.cycles[j].period.start.Key()
  {
    RunKeeps(today, startDay, commands);
    StartDayIsFixed(today, startDay, commands);
  }

  lemma {:induction false} StartDayIsFixed(today: Date, startDay: StartDay, commands: seq<Command>)
    ensures Run(today, startDay, commands).startDay == startDay
  {
    if commands != [] {
      var last := |commands| - 1;
      var b := Run(today, startDay, commands[..last]);
      StartDayIsFixed(today, startDay, commands[..last]);
      ApplyKeepsStartDay(b, commands[last]);
    }
  }

  lemma {:induction false} ApplyKeepsStartDay(b: Books, cmd: Command)
    ensures Apply(b, cmd).books.startDay == b.startDay
  {
  }

  /** An entry never posts to a cycle that ended before it occurred. */
  lemma {:induction false} EntriesPostForward(today: Date, startDay: StartDay, commands: seq<Command>, i: nat)
    requires i < |Run(today, startDay, commands).ledger|
    ensures var b := Run(today, startDay, commands);
            b.ledger[i].cycle < |b.cycles|
            && b.ledger[i].occurredOn.Key() <= b.cycles[b.ledger[i].cycle].period.end.Key()
  {
    RunKeeps(today, startDay, commands);
  }
}
