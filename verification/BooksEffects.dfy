/** What every accepted command leaves behind and why a refused one is refused, on every
    reachable state, in the terms of the documents themselves: each field of each new row,
    the one ledger entry with its cycle, and the commission. */
module BooksEffects {
  import opened Outcomes
  import opened Calendar
  import opened Money
  import opened Ranges
  import opened Records
  import opened Payments
  import opened Commission
  import opened CommissionEffects
  import opened Ledger
  import opened Books
  import opened BooksInvariants
  import opened BooksClosing
  import opened BooksRuns
  import opened BooksAcceptance

  function On(b: Books, date: Option<Date>): Date {
    if date.Some? then date.value else b.today
  }

  // ---- charges -----------------------------------------------------------------

  /** The quantity in thousandths, exactly as given, and within bounds. */
  ghost predicate IsQuantityOf(quantity: Option<Decimal>, milli: int) {
    quantity.Some? && milli * Pow10(quantity.value.scale) == quantity.value.coefficient * 1000
    && 0 <= milli <= 999_999_999_999
  }

  /** A SKIP is worth nothing; a SERVICE is its quantity at the price, rounded once, a tie
      going away from zero. */
  ghost predicate IsCharged(kind: Kind, quantity: Option<Decimal>, price: int, milli: int, charge: int) {
    match kind
    case Skip => milli == 0 && charge == 0
    case Service =>
      IsQuantityOf(quantity, milli) && 0 <= price <= 1_000_000_000_000 && IsHalfUp(milli * price, 1000, charge)
  }

  lemma ResolvedIsCharged(kind: Kind, quantity: Option<Decimal>, price: int, milli: int, charge: int)
    requires ResolveCharge(kind, quantity, price) == Some((milli, charge))
    ensures IsCharged(kind, quantity, price, milli, charge)
  {
    RoundHalfUpIsNearest(milli * price, 1000, charge);
  }

  /** A SERVICE has no charge exactly for a missing quantity, one that is negative, too large
      or finer than a thousandth, or a price out of range. */
  ghost predicate IsChargeable(kind: Kind, quantity: Option<Decimal>, price: int) {
    kind == Skip
    || (quantity.Some? && 0 <= price <= 1_000_000_000_000
        && var q := quantity.value;
           0 <= q.coefficient && q.coefficient * 1000 <= 999_999_999_999 * Pow10(q.scale)
           && q.coefficient * 1000 % Pow10(q.scale) == 0)
  }

  lemma ResolvesExactly(kind: Kind, quantity: Option<Decimal>, price: int)
    ensures ResolveCharge(kind, quantity, price).Some? <==> IsChargeable(kind, quantity, price)
  {
  }

  // ---- postings ----------------------------------------------------------------

  /** The one entry a command posts, when it is not zero: to the open cycle, which is the
      newest and has not ended, and which is opened for the period of today when there is
      none. */
  ghost predicate Posts(
      b: Books, x: Books, customer: nat, kind: EntryKind, amount: int, on: Date, origin: Origin, id: nat)
  {
    if amount == 0 then x.ledger == b.ledger && x.cycles == b.cycles
    else
      x.cycles != [] && |x.ledger| == |b.ledger| + 1 && x.ledger[..|b.ledger|] == b.ledger
      && var e, k := x.ledger[|b.ledger|], |x.cycles| - 1;
         e.customer == customer && e.kind == kind && e.amount == amount && e.occurredOn == on
         && e.origin == origin && e.sourceId == id && e.cycle == k && e.version == x.nextVersion - 1
         && x.cycles[k].open && x.today.Key() <= x.cycles[k].period.end.Key()
         && OpensAtMostOne(b, x)
  }

  /** No cycle is opened while one is open; a new one is the period that today lies in. */
  ghost predicate OpensAtMostOne(b: Books, x: Books) {
    if exists i :: 0 <= i < |b.cycles| && b.cycles[i].open then x.cycles == b.cycles
    else
      |x.cycles| == |b.cycles| + 1 && x.cycles[..|b.cycles|] == b.cycles
      && x.cycles[|b.cycles|].period.Contains(b.today) && x.cycles[|b.cycles|].period.start.day == b.startDay
  }

  lemma {:induction false} EnsuringOpensAtMostOne(b: Books)
    requires CyclesOk(b.today, b.startDay, b.cycles) && EnsureOpenCycle(b).Ok?
    ensures OpensAtMostOne(b, EnsureOpenCycle(b).value.0)
  {
    if OpenCycle(b.cycles).None? {
      PeriodContainsItsDate(b.startDay, b.today);
    }
  }

  lemma {:induction false} PostedIs(b: Books, b1: Books, p: Posting, x: Books)
    requires CyclesOk(b1.today, b1.startDay, b1.cycles) && !KeyTaken(b1.ledger, p)
    requires b1.ledger == b.ledger && b1.cycles == b.cycles && b1.today == b.today && b1.startDay == b.startDay
    requires PostEntry(b1, p) == Ok(x)
    ensures Posts(b, x, p.customer, p.kind, p.amount, p.occurredOn, p.origin, p.sourceId)
    ensures x == b1.(ledger := x.ledger, cycles := x.cycles, nextVersion := x.nextVersion)
    ensures x.nextVersion == b1.nextVersion + if p.amount == 0 then 0 else 1
  {
    if p.amount != 0 {
      EntryPosted(b1, p, x);
    }
  }

  lemma {:induction false} EntryPosted(b: Books, p: Posting, x: Books)
    requires CyclesOk(b.today, b.startDay, b.cycles) && !KeyTaken(b.ledger, p) && p.amount != 0
    requires PostEntry(b, p) == Ok(x)
    ensures x == b.(ledger := x.ledger, cycles := x.cycles, nextVersion := b.nextVersion + 1)
    ensures x.cycles != [] && x.ledger == b.ledger + [p.AsEntry(|x.cycles| - 1, b.nextVersion)]
    ensures x.cycles[|x.cycles| - 1].open && x.today.Key() <= x.cycles[|x.cycles| - 1].period.end.Key()
    ensures OpensAtMostOne(b, x)
  {
    EnsureOpenCycleKeeps(b);
    EnsuringOpensAtMostOne(b);
    var (ready, k) := EnsureOpenCycle(b).value;
    EnteredIn(b, p, x, ready, k);
  }

  lemma EnteredIn(b: Books, p: Posting, x: Books, ready: Books, k: nat)
    requires p.amount != 0 && EnsureOpenCycle(b) == Ok((ready, k)) && PostEntry(b, p) == Ok(x)
    ensures x == WithEntry(ready, p.AsEntry(k, ready.nextVersion))
  {
  }

  /** The rest of the books: the documents that a command does not touch. */
  ghost predicate KeepsPeople(b: Books, x: Books) {
    x.customers == b.customers && x.today == b.today && x.startDay == b.startDay && x.statements == b.statements
  }

  /** A posting command that was accepted: its documents, its entry and its commission. */
  lemma {:induction false} SettledIs(b: Books, b1: Books, p: Posting, earnings: Earnings, drawn: nat, x: Books)
    requires CyclesOk(b.today, b.startDay, b.cycles) && !KeyTaken(b.ledger, p)
    requires b1.ledger == b.ledger && b1.cycles == b.cycles && KeepsPeople(b, b1)
    requires Settle(b, PostEntry(b1, p), earnings, drawn) == Outcome(x, None)
    ensures Posts(b, x, p.customer, p.kind, p.amount, p.occurredOn, p.origin, p.sourceId)
    ensures KeepsPeople(b, x) && x.records == b1.records && x.payments == b1.payments && x.earnings == earnings
    ensures x.nextVersion == b1.nextVersion + if p.amount == 0 then 0 else 1
  {
    PostedIs(b, b1, p, PostEntry(b1, p).value);
  }

  // ---- what no event or adjustment has yet -------------------------------------

  lemma {:induction false} NewSourcesUnearned(b: Books)
    requires EarningsOk(b)
    ensures FindEvent(b.earnings.events, OfRecord(|b.records|)).None?
    ensures FindEvent(b.earnings.events, OfPayment(|b.payments|)).None?
  {
    forall k | 0 <= k < |b.earnings.events|
      ensures b.earnings.events[k].source != OfRecord(|b.records|)
      ensures b.earnings.events[k].source != OfPayment(|b.payments|)
    {
      assert EventHolds(b.records, b.payments, BilledValues(b.statements), b.earnings, k);
    }
  }

  lemma {:induction false} LiveSourcesUnadjusted(b: Books, source: Source)
    requires EarningsOk(b)
    requires (source.OfRecord? && source.id < |b.records| && b.records[source.id].status == Active)
             || (source.OfPayment? && source.id < |b.payments| && b.payments[source.id].status == Recorded)
    ensures !HasAdjustment(b.earnings.adjustments, source)
  {
    forall a | 0 <= a < |b.earnings.adjustments| ensures b.earnings.adjustments[a].source != source {
      assert AdjustmentHolds(b.records, b.payments, b.earnings, a);
    }
  }

  // ---- recording a day ---------------------------------------------------------

  /** One more record, priced today, with its entry and its commission; nothing else. */
  ghost predicate RecordsADay(
      b: Books, x: Books, customer: nat, kind: Kind, quantity: Option<Decimal>, on: Date)
  {
    customer < |b.customers| && KeepsPeople(b, x) && x.payments == b.payments
    && |x.records| == |b.records| + 1 && x.records[..|b.records|] == b.records
    && var r, i := x.records[|b.records|], |b.records|;
       r == Record(customer, on, r.milli, b.customers[customer].unitPrice, r.charge, kind, Active, None, None, None,
                   b.nextVersion)
       && IsCharged(kind, quantity, r.unitPrice, r.milli, r.charge)
       && Posts(b, x, customer, ChargeEntry, r.charge, on, FromRecord, i)
       && (if kind == Service then GainsEvent(b.earnings, x.earnings, OfRecord(i), r.charge, on)
           else x.earnings == b.earnings)
       && x.nextVersion == b.nextVersion + if r.charge == 0 then 1 else 2
  }

  lemma {:induction false} InsertedIs(b: Books, r: Record, x: Books)
    requires Inv(b) && InsertRecord(b, r) == Outcome(x, None) && (r.kind == Skip ==> r.charge == 0)
    ensures KeepsPeople(b, x) && x.payments == b.payments && x.records == b.records + [r]
    ensures Posts(b, x, r.customer, ChargeEntry, r.charge, r.date, FromRecord, |b.records|)
    ensures if r.kind == Service then GainsEvent(b.earnings, x.earnings, OfRecord(|b.records|), r.charge, r.date)
            else x.earnings == b.earnings
    ensures x.nextVersion == b.nextVersion + if r.charge == 0 then 1 else 2
  {
    var b1, p := WithRecord(b, r), ChargePosting(r, |b.records|);
    NewSourceIsFree(b, p);
    SettledIs(b, b1, p, OnServiceRecorded(b.earnings, b1.records, |b.records|), 1, x);
    NewSourcesUnearned(b);
    if r.kind == Service {
      RecordedGains(b.earnings, b1.records, |b.records|);
    }
  }

  lemma {:induction false} RecordingLeaves(
      b: Books, customer: nat, kind: Kind, quantity: Option<Decimal>, date: Option<Date>, x: Books)
    requires Inv(b) && RecordService(b, customer, kind, quantity, date) == Outcome(x, None)
    ensures RecordsADay(b, x, customer, kind, quantity, On(b, date))
  {
    var price := b.customers[customer].unitPrice;
    var (milli, charge) := ResolveCharge(kind, quantity, price).value;
    var r := Record(customer, On(b, date), milli, price, charge, kind, Active, None, None, None, b.nextVersion);
    ResolvedIsCharged(kind, quantity, price, milli, charge);
    InsertedIs(b, r, x);
    assert x.records[..|b.records|] == b.records;
  }

  // ---- correcting and voiding a day --------------------------------------------

  /** The original is superseded and stands as it was otherwise; its replacement takes its
      customer, date and price, says what difference it made, and draws the later version. */
  ghost predicate Corrects(b: Books, x: Books, i: nat, kind: Kind, quantity: Option<Decimal>) {
    i < |b.records| && b.records[i].status == Active && KeepsPeople(b, x) && x.payments == b.payments
    && |x.records| == |b.records| + 1
    && (forall j :: 0 <= j < |b.records| && j != i ==> x.records[j] == b.records[j])
    && var was, r, n := b.records[i], x.records[|b.records|], |b.records|;
       x.records[i] == was.(status := Superseded, version := b.nextVersion, supersededBy := Some(n))
       && r == Record(was.customer, was.date, r.milli, was.unitPrice, r.charge, kind, Active, Some(i), None,
                      Some(r.charge - was.charge), b.nextVersion + 1)
       && IsCharged(kind, quantity, r.unitPrice, r.milli, r.charge)
       && Posts(b, x, was.customer, AdjustmentEntry, r.charge - was.charge, was.date, FromRecord, i)
       && Reearns(b.records, b.earnings, x.earnings, i, r)
       && x.nextVersion == b.nextVersion + if r.charge == was.charge then 2 else 3
  }

  lemma {:induction false} ReplacedIs(b: Books, i: nat, r: Record, x: Books)
    requires Inv(b) && Replaces(b, i, r) && ReplaceRecord(b, i, r) == Outcome(x, None)
    ensures KeepsPeople(b, x) && x.payments == b.payments && x.records == Supersede(b.records, i, b.nextVersion, r)
    ensures Posts(b, x, b.records[i].customer, AdjustmentEntry, r.charge - b.records[i].charge, b.records[i].date,
                  FromRecord, i)
    ensures Reearns(b.records, b.earnings, x.earnings, i, r)
    ensures x.nextVersion == b.nextVersion + if r.charge == b.records[i].charge then 2 else 3
  {
    var b1, p := WithReplacement(b, i, r), AdjustmentPosting(b.records[i], i, r.charge);
    SlotIsFreed(b.today, b.records, i);
    LiveSourceIsFree(b, p);
    SettledIs(b, b1, p, OnServiceCorrected(b.earnings, b1.records, i, |b.records|), 2, x);
    NewSourcesUnearned(b);
    LiveSourcesUnadjusted(b, OfRecord(i));
    CorrectedGains(b.records, b.earnings, i, b.nextVersion, r, b1.records);
  }

  lemma {:induction false} CorrectionLeaves(
      b: Books, i: nat, kind: Kind, quantity: Option<Decimal>, blank: bool, x: Books)
    requires Inv(b) && CorrectService(b, i, kind, quantity, blank) == Outcome(x, None)
    ensures Corrects(b, x, i, kind, quantity)
  {
    var r := AcceptedIsReplacement(b, i, kind, quantity, blank);
    ReplacedIs(b, i, r, x);
    ResolvedIsCharged(kind, quantity, b.records[i].unitPrice, r.milli, r.charge);
    CorrectsBy(b, x, i, kind, quantity, r);
  }

  lemma {:induction false} CorrectsBy(
      b: Books, x: Books, i: nat, kind: Kind, quantity: Option<Decimal>, r: Record)
    requires i < |b.records| && b.records[i].status == Active && KeepsPeople(b, x) && x.payments == b.payments
    requires x.records == Supersede(b.records, i, b.nextVersion, r)
    requires r == Record(b.records[i].customer, b.records[i].date, r.milli, b.records[i].unitPrice, r.charge, kind,
                         Active, Some(i), None, Some(r.charge - b.records[i].charge), b.nextVersion + 1)
    requires IsCharged(kind, quantity, r.unitPrice, r.milli, r.charge)
    requires Posts(b, x, b.records[i].customer, AdjustmentEntry, r.charge - b.records[i].charge, b.records[i].date,
                   FromRecord, i)
    requires Reearns(b.records, b.earnings, x.earnings, i, r)
    requires x.nextVersion == b.nextVersion + if r.charge == b.records[i].charge then 2 else 3
    ensures Corrects(b, x, i, kind, quantity)
  {
  }

  /** The record ends, its charge is posted back and its commission given back. */
  ghost predicate Voids(b: Books, x: Books, i: nat) {
    i < |b.records| && b.records[i].status == Active && KeepsPeople(b, x) && x.payments == b.payments
    && |x.records| == |b.records|
    && (forall j :: 0 <= j < |b.records| && j != i ==> x.records[j] == b.records[j])
    && var was := b.records[i];
       x.records[i] == was.(status := Voided, version := b.nextVersion)
       && Posts(b, x, was.customer, AdjustmentEntry, -was.charge, was.date, FromRecord, i)
       && GivesBack(b.records, b.earnings, x.earnings, i)
       && x.nextVersion == b.nextVersion + if was.charge == 0 then 1 else 2
  }

  lemma {:induction false} EndedIs(b: Books, i: nat, x: Books)
    requires Inv(b) && i < |b.records| && b.records[i].status == Active && EndRecord(b, i) == Outcome(x, None)
    ensures Voids(b, x, i)
  {
    var b1, p := WithoutRecord(b, i), AdjustmentPosting(b.records[i], i, 0);
    LiveSourceIsFree(b, p);
    SettledIs(b, b1, p, OnServiceVoided(b.earnings, b1.records, i), 1, x);
    LiveSourcesUnadjusted(b, OfRecord(i));
    VoidedGains(b.records, b.earnings, i, b.nextVersion, b1.records);
  }

  lemma {:induction false} VoidLeaves(b: Books, i: nat, blank: bool, x: Books)
    requires Inv(b) && VoidService(b, i, blank) == Outcome(x, None)
    ensures Voids(b, x, i)
  {
    EndedIs(b, i, x);
  }

  // ---- payments ----------------------------------------------------------------

  /** One more payment, with its negative entry and its commission. */
  ghost predicate TakesPayment(b: Books, x: Books, customer: nat, amount: int, on: Date) {
    KeepsPeople(b, x) && x.records == b.records
    && x.payments == b.payments + [Payment(customer, amount, on, Recorded, b.nextVersion)]
    && Posts(b, x, customer, PaymentEntry, -amount, on, FromPayment, |b.payments|)
    && GainsEvent(b.earnings, x.earnings, OfPayment(|b.payments|), amount, on)
    && x.nextVersion == b.nextVersion + 2
  }

  lemma {:induction false} PaidIs(b: Books, payment: Payment, x: Books)
    requires Inv(b) && InsertPayment(b, payment) == Outcome(x, None)
    requires payment == Payment(payment.customer, payment.amount, payment.receivedOn, Recorded, b.nextVersion)
    requires 0 < payment.amount
    ensures TakesPayment(b, x, payment.customer, payment.amount, payment.receivedOn)
  {
    var b1, p := WithPayment(b, payment), PaymentPosting(payment, |b.payments|);
    NewSourceIsFree(b, p);
    SettledIs(b, b1, p, OnPaymentRecorded(b.earnings, b1.payments, |b.payments|), 1, x);
    NewSourcesUnearned(b);
    PaymentGains(b.earnings, b1.payments, |b.payments|);
  }

  lemma {:induction false} PaymentLeaves(b: Books, customer: nat, amount: int, date: Option<Date>, x: Books)
    requires Inv(b) && RecordPayment(b, customer, amount, date) == Outcome(x, None)
    ensures TakesPayment(b, x, customer, amount, On(b, date))
  {
    PaidIs(b, Payment(customer, amount, On(b, date), Recorded, b.nextVersion), x);
  }

  /** The payment is reversed, its amount posted back and its commission given back. */
  ghost predicate ReversesPayment(b: Books, x: Books, p: nat) {
    p < |b.payments| && b.payments[p].status == Recorded && KeepsPeople(b, x) && x.records == b.records
    && |x.payments| == |b.payments|
    && (forall j :: 0 <= j < |b.payments| && j != p ==> x.payments[j] == b.payments[j])
    && var was := b.payments[p];
       x.payments[p] == was.(status := Reversed, version := b.nextVersion)
       && Posts(b, x, was.customer, AdjustmentEntry, was.amount, was.receivedOn, FromPayment, p)
       && GivesBackPayment(b.payments, b.earnings, x.earnings, p)
       && x.nextVersion == b.nextVersion + 2
  }

  lemma {:induction false} ReversedIs(b: Books, p: nat, x: Books)
    requires Inv(b) && p < |b.payments| && b.payments[p].status == Recorded && ReversePayment(b, p) == Outcome(x, None)
    ensures ReversesPayment(b, x, p)
  {
    var b1, posting := WithReversal(b, p), ReversalPosting(b.payments[p], p);
    LiveSourceIsFree(b, posting);
    SettledIs(b, b1, posting, OnPaymentVoided(b.earnings, b1.payments, p), 1, x);
    LiveSourcesUnadjusted(b, OfPayment(p));
    PaymentVoidedGains(b.payments, b1.payments, b.earnings, p);
    assert 0 < b.payments[p].amount;
  }

  lemma {:induction false} ReversalLeaves(b: Books, p: nat, blank: bool, x: Books)
    requires Inv(b) && VoidPayment(b, p, blank) == Outcome(x, None)
    ensures ReversesPayment(b, x, p)
  {
    ReversedIs(b, p, x);
  }
}
