/** What the derived payment status of a customer means in documents. */
module BooksStatus {
  import opened Outcomes
  import opened Calendar
  import opened Records
  import opened Payments
  import opened Ledger
  import opened Books
  import opened BooksInvariants
  import opened BooksClosing
  import opened BooksRuns
  import opened BooksBalance
  import opened BooksReports

  datatype PaymentState = Paid | PartiallyPaid | Unpaid

  function PaymentStatus(b: Books, customer: nat): PaymentState {
    if Outstanding(b.ledger, Some(customer), None) <= 0 then Paid
    else
      match OpenCycle(b.cycles)
      case None => Unpaid
      case Some(k) => if Collected(b.ledger, Some(customer), Some({k})) != 0 then PartiallyPaid else Unpaid
  }

  // ---- since a cycle was opened ------------------------------------------------

  /** The ledger as it stood when cycle `k` was about to be opened: older entries post to
      older, closed cycles, and later ones to `k` or after. */
  ghost predicate Since(es: seq<Entry>, k: nat, b: Books) {
    k <= |b.cycles| && es <= b.ledger
    && (forall q :: 0 <= q < k ==> !b.cycles[q].open)
    && (forall i :: 0 <= i < |es| ==> es[i].cycle < k)
    && (forall i :: |es| <= i < |b.ledger| ==> k <= b.ledger[i].cycle)
  }

  lemma {:induction false} GrowthKeepsSince(es: seq<Entry>, k: nat, b: Books, x: Books)
    requires Since(es, k, b) && Grew(b, x)
    ensures Since(es, k, x)
  {
  }

  lemma {:induction false} CommandKeepsSince(es: seq<Entry>, k: nat, b: Books, cmd: Command)
    requires Inv(b) && Since(es, k, b)
    ensures Since(es, k, Apply(b, cmd).books)
  {
    if IsPosting(cmd) {
      PostingGrows(b, cmd);
      GrowthKeepsSince(es, k, b, Apply(b, cmd).books);
    } else if cmd.CloseCycleCmd? && Closable(b, cmd.cycle) {
      CloseEffect(b, cmd.cycle);
      ClosedKeepsSince(es, k, b, cmd.cycle, Apply(b, cmd).books);
    }
  }

  lemma {:induction false} ClosedKeepsSince(es: seq<Entry>, k: nat, b: Books, c: nat, x: Books)
    requires Since(es, k, b) && c < |b.cycles| && ClosedAs(b, c, x)
    ensures Since(es, k, x)
  {
  }

  /** A state with no open cycle and `k` cycles. */
  ghost predicate Between(b: Books, k: nat) {
    OpenCycle(b.cycles).None? && |b.cycles| == k
  }

  lemma {:induction false} BeginsSince(b: Books, k: nat)
    requires Inv(b) && Between(b, k)
    ensures Since(b.ledger, k, b)
  {
  }

  lemma {:induction false} SinceNow(today: Date, startDay: StartDay, commands: seq<Command>, k: nat, b: Books)
    requires b == Run(today, startDay, commands) && Between(b, k)
    ensures Since(b.ledger, k, b)
  {
    RunKeeps(today, startDay, commands);
    BeginsSince(b, k);
  }

  lemma {:induction false} SinceOneMore(
      today: Date, startDay: StartDay, commands: seq<Command>, es: seq<Entry>, k: nat, b: Books, cmd: Command)
    requires b == Run(today, startDay, commands) && Since(es, k, b)
    ensures Since(es, k, Apply(b, cmd).books)
  {
    RunKeeps(today, startDay, commands);
    CommandKeepsSince(es, k, b, cmd);
  }

  lemma {:induction false} LastOfRun(today: Date, startDay: StartDay, commands: seq<Command>, last: nat, b: Books)
    requires |commands| == last + 1 && b == Run(today, startDay, commands[..last])
    ensures Run(today, startDay, commands) == Apply(b, commands[last]).books
  {
  }

  lemma {:induction false} RunKeepsSince(
      today: Date, startDay: StartDay, commands: seq<Command>, n: nat, k: nat, opening: Books)
    requires n <= |commands| && opening == Run(today, startDay, commands[..n]) && Between(opening, k)
    ensures Since(opening.ledger, k, Run(today, startDay, commands))
  {
    if n == |commands| {
      assert commands[..n] == commands;
      SinceNow(today, startDay, commands, k, opening);
    } else {
      var last: nat := |commands| - 1;
      var b := Run(today, startDay, commands[..last]);
      assert commands[..last][..n] == commands[..n];
      RunKeepsSince(today, startDay, commands[..last], n, k, opening);
      SinceOneMore(today, startDay, commands[..last], opening.ledger, k, b, commands[last]);
      LastOfRun(today, startDay, commands, last, b);
    }
  }

  /** There was such a state before every cycle. */
  lemma {:induction false} BeforeTheCycle(today: Date, startDay: StartDay, commands: seq<Command>, k: nat)
    returns (n: nat)
    requires k < |Run(today, startDay, commands).cycles|
    ensures n <= |commands| && Between(Run(today, startDay, commands[..n]), k)
  {
    var last: nat := |commands| - 1;
    var b := Run(today, startDay, commands[..last]);
    if k < |b.cycles| {
      n := BeforeTheCycle(today, startDay, commands[..last], k);
      assert commands[..last][..n] == commands[..n];
    } else {
      n := last;
      RunKeeps(today, startDay, commands[..last]);
      NewCycleMeansNone(b, commands[last]);
    }
  }

  lemma {:induction false} NewCycleMeansNone(b: Books, cmd: Command)
    requires Inv(b) && |b.cycles| < |Apply(b, cmd).books.cycles|
    ensures OpenCycle(b.cycles).None? && |Apply(b, cmd).books.cycles| == |b.cycles| + 1
  {
    if IsPosting(cmd) {
      PostingGrows(b, cmd);
      ApplyKeeps(b, cmd);
      GrownMeansNone(b, Apply(b, cmd).books);
    } else {
      OthersOpenNothing(b, cmd);
    }
  }

  lemma {:induction false} OthersOpenNothing(b: Books, cmd: Command)
    requires Inv(b) && !IsPosting(cmd)
    ensures |Apply(b, cmd).books.cycles| == |b.cycles|
  {
    if cmd.CloseCycleCmd? && Closable(b, cmd.cycle) {
      CloseEffect(b, cmd.cycle);
    }
  }

  lemma {:induction false} GrownMeansNone(b: Books, x: Books)
    requires Grew(b, x) && CyclesOk(x.today, x.startDay, x.cycles) && |b.cycles| < |x.cycles|
    ensures OpenCycle(b.cycles).None? && |x.cycles| == |b.cycles| + 1
  {
    if OpenCycle(b.cycles).Some? {
      StillOpenAfterGrowth(b, x, OpenCycle(b.cycles).value);
    }
  }

  /** A second open cycle cannot appear beside one. */
  lemma {:induction false} StillOpenAfterGrowth(b: Books, x: Books, k: nat)
    requires k < |b.cycles| && b.cycles[k].open && Grew(b, x) && CyclesOk(x.today, x.startDay, x.cycles)
    ensures |x.cycles| == |b.cycles|
  {
    assert x.cycles[k] == b.cycles[k];
    OpenCycleIsNewest(x.today, x.startDay, x.cycles, k);
  }

  // ---- the status --------------------------------------------------------------

  lemma {:induction false} SumSince(es: seq<Entry>, n: nat, k: nat, customer: Option<nat>, part: Part)
    requires n <= |es| && (forall i :: 0 <= i < n ==> es[i].cycle < k) && forall i :: n <= i < |es| ==> es[i].cycle == k
    ensures Sum(es, customer, Some({k}), part) == Sum(es, customer, None, part) - Sum(es[..n], customer, None, part)
    decreases |es|
  {
    if n < |es| {
      var last: nat := |es| - 1;
      assert es[..last][..n] == es[..n];
      SumSince(es[..last], n, k, customer, part);
    } else {
      assert es[..n] == es;
      NoneInCycle(es, k, customer, part);
    }
  }

  lemma {:induction false} NoneInCycle(es: seq<Entry>, k: nat, customer: Option<nat>, part: Part)
    requires forall i :: 0 <= i < |es| ==> es[i].cycle < k
    ensures Sum(es, customer, Some({k}), part) == 0
  {
    if es != [] {
      NoneInCycle(es[..|es| - 1], k, customer, part);
    }
  }

  lemma {:induction false} CollectedSince(es: seq<Entry>, k: nat, b: Books, customer: Option<nat>)
    requires Since(es, k, b) && PostingOk(b.ledger, b.cycles) && |b.cycles| == k + 1
    ensures Collected(b.ledger, customer, Some({k}))
            == Collected(b.ledger, customer, None) - Collected(es, customer, None)
  {
    EntriesOfNewest(es, k, b);
    SumSince(b.ledger, |es|, k, customer, PaymentsMade);
    SumSince(b.ledger, |es|, k, customer, PaymentReversals);
    assert b.ledger[..|es|] == es;
  }

  lemma {:induction false} NewestIsLast(today: Date, startDay: StartDay, commands: seq<Command>, k: nat, b: Books)
    requires b == Run(today, startDay, commands) && OpenCycle(b.cycles) == Some(k)
    ensures |b.cycles| == k + 1 && PostingOk(b.ledger, b.cycles)
  {
    RunKeeps(today, startDay, commands);
    OpenCycleIsNewest(b.today, b.startDay, b.cycles, k);
  }

  /** What the open cycle collected is how far the live payments have moved since just before
      it was opened. */
  lemma {:induction false} CollectedInOpenCycle(
      today: Date, startDay: StartDay, commands: seq<Command>, n: nat, k: nat, customer: Option<nat>)
    requires n <= |commands| && Between(Run(today, startDay, commands[..n]), k)
    requires OpenCycle(Run(today, startDay, commands).cycles) == Some(k)
    ensures Collected(Run(today, startDay, commands).ledger, customer, Some({k}))
            == LivePayments(Run(today, startDay, commands).payments, customer)
               - LivePayments(Run(today, startDay, commands[..n]).payments, customer)
  {
    var b, opening := Run(today, startDay, commands), Run(today, startDay, commands[..n]);
    NewestIsLast(today, startDay, commands, k, b);
    RunKeepsSince(today, startDay, commands, n, k, opening);
    CollectedSince(opening.ledger, k, b, customer);
    RunBalances(today, startDay, commands, customer);
    RunBalances(today, startDay, commands[..n], customer);
  }

  lemma {:induction false} EntriesOfNewest(es: seq<Entry>, k: nat, b: Books)
    requires Since(es, k, b) && PostingOk(b.ledger, b.cycles) && |b.cycles| == k + 1
    ensures (forall i :: 0 <= i < |es| ==> b.ledger[i].cycle < k)
    ensures forall i :: |es| <= i < |b.ledger| ==> b.ledger[i].cycle == k
  {
  }

  /** PAID means the live payments cover the active charges. Otherwise the status is
      PARTIALLY_PAID exactly when a cycle is open and the live payments are not what they were
      just before it was opened: more were taken than voided since, or fewer. In every other
      case it is UNPAID, payments of earlier cycles notwithstanding. */
  lemma {:induction false} StatusIsAboutDocuments(
      today: Date, startDay: StartDay, commands: seq<Command>, customer: nat, n: nat)
    requires n <= |commands|
    requires OpenCycle(Run(today, startDay, commands).cycles).Some? ==>
               Between(Run(today, startDay, commands[..n]), OpenCycle(Run(today, startDay, commands).cycles).value)
    ensures var b, before, c := Run(today, startDay, commands), Run(today, startDay, commands[..n]), Some(customer);
            var owes := LivePayments(b.payments, c) < ActiveCharges(b.records, c);
            var moved := OpenCycle(b.cycles).Some? && LivePayments(b.payments, c) != LivePayments(before.payments, c);
            (PaymentStatus(b, customer) == Paid <==> !owes)
            && (PaymentStatus(b, customer) == PartiallyPaid <==> owes && moved)
            && (PaymentStatus(b, customer) == Unpaid <==> owes && !moved)
  {
    RunBalances(today, startDay, commands, Some(customer));
    var open := OpenCycle(Run(today, startDay, commands).cycles);
    if open.Some? {
      CollectedInOpenCycle(today, startDay, commands, n, open.value, Some(customer));
    }
  }
}
