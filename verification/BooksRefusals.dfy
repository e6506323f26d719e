/** Why a command is refused, on every reachable state: each error answers one condition of
    the request and the books, the first that applies, and a refusal leaves nothing behind
    but the versions it had drawn. */
module BooksRefusals {
  import opened Outcomes
  import opened Calendar
  import opened Money
  import opened Ranges
  import opened Records
  import opened Payments
  import opened Commission
  import opened Ledger
  import opened Books
  import opened BooksInvariants
  import opened BooksClosing
  import opened BooksAcceptance
  import opened BooksEffects

  /** The refusal of a command: nothing changed, so many versions drawn. */
  ghost predicate IsRefusal(b: Books, x: Outcome, error: Error, drawn: nat) {
    x == Outcome(b.(nextVersion := b.nextVersion + drawn), Some(error))
  }

  /** An open cycle has ended before today: the rollover is due. */
  ghost predicate RolloverDue(b: Books) {
    exists k :: 0 <= k < |b.cycles| && b.cycles[k].open && b.cycles[k].period.end.Key() < b.today.Key()
  }

  lemma {:induction false} PostableUnlessRolloverDue(b: Books)
    requires CyclesOk(b.today, b.startDay, b.cycles)
    ensures CanPost(b) <==> !RolloverDue(b)
  {
    if k: nat :| k < |b.cycles| && b.cycles[k].open {
      OpenCycleIsNewest(b.today, b.startDay, b.cycles, k);
    }
  }

  /** A posting of nothing is never refused, any other one exactly when the rollover is due. */
  lemma {:induction false} PostingRefused(b: Books, p: Posting)
    requires CyclesOk(b.today, b.startDay, b.cycles) && !KeyTaken(b.ledger, p)
    ensures PostEntry(b, p) == Err(RolloverRequired) <==> p.amount != 0 && RolloverDue(b)
    ensures PostEntry(b, p).Err? ==> PostEntry(b, p) == Err(RolloverRequired)
  {
    PostableUnlessRolloverDue(b);
    PostsExactly(b, p);
    EnsureOpenCycleKeeps(b);
  }

  /** A posting command whose posting is refused has drawn the versions of its documents. */
  lemma {:induction false} SettlingRefused(
      b: Books, b1: Books, p: Posting, earnings: Earnings, drawn: nat, x: Outcome)
    requires CyclesOk(b.today, b.startDay, b.cycles) && !KeyTaken(b.ledger, p)
    requires b1.ledger == b.ledger && b1.cycles == b.cycles && b1.today == b.today && b1.startDay == b.startDay
    requires x == Settle(b, PostEntry(b1, p), earnings, drawn)
    ensures if p.amount != 0 && RolloverDue(b) then IsRefusal(b, x, RolloverRequired, drawn) else x.error.None?
  {
    PostingRefused(b1, p);
    assert RolloverDue(b1) <==> RolloverDue(b);
  }

  // ---- charges -----------------------------------------------------------------

  /** The service is worth something. */
  ghost predicate IsWorth(kind: Kind, quantity: Option<Decimal>, price: int) {
    exists milli, charge :: IsCharged(kind, quantity, price, milli, charge) && charge != 0
  }

  lemma ChargedOnce(kind: Kind, quantity: Option<Decimal>, price: int, m: int, c: int, m': int, c': int)
    requires IsCharged(kind, quantity, price, m, c) && IsCharged(kind, quantity, price, m', c')
    ensures m == m' && c == c'
  {
    if kind == Service {
      var one := Pow10(quantity.value.scale);
      if m < m' { MultipleOrder(m, m', one); } else if m' < m { MultipleOrder(m', m, one); }
      RoundHalfUpIsNearest(m * price, 1000, c);
      RoundHalfUpIsNearest(m * price, 1000, c');
    }
  }

  lemma ResolvedIsWorth(kind: Kind, quantity: Option<Decimal>, price: int)
    requires ResolveCharge(kind, quantity, price).Some?
    ensures ResolveCharge(kind, quantity, price).value.1 != 0 <==> IsWorth(kind, quantity, price)
  {
    var (milli, charge) := ResolveCharge(kind, quantity, price).value;
    ResolvedIsCharged(kind, quantity, price, milli, charge);
    if m, c :| IsCharged(kind, quantity, price, m, c) && c != 0 {
      ChargedOnce(kind, quantity, price, milli, charge, m, c);
    }
  }

  // ---- recording a day ---------------------------------------------------------

  ghost predicate ActiveOn(rs: seq<Record>, customer: nat, on: Date) {
    exists i :: 0 <= i < |rs| && rs[i].status == Active && rs[i].customer == customer && rs[i].date == on
  }

  /** The first thing that is wrong with a recording, if anything is. */
  ghost predicate RecordingRefusal(
      b: Books, customer: nat, kind: Kind, quantity: Option<Decimal>, on: Date, x: Outcome)
  {
    if |b.customers| <= customer then IsRefusal(b, x, NotFound, 0)
    else if !b.customers[customer].active then IsRefusal(b, x, InactiveCustomer, 0)
    else if b.today.Key() < on.Key() then IsRefusal(b, x, FutureDate, 0)
    else if !IsChargeable(kind, quantity, b.customers[customer].unitPrice) then IsRefusal(b, x, BadQuantity, 0)
    else if ActiveOn(b.records, customer, on) then IsRefusal(b, x, AlreadyRecorded, 1)
    else if IsWorth(kind, quantity, b.customers[customer].unitPrice) && RolloverDue(b)
    then IsRefusal(b, x, RolloverRequired, 1)
    else x.error.None?
  }

  lemma {:induction false} InsertionRefused(b: Books, r: Record, x: Outcome)
    requires Inv(b) && x == InsertRecord(b, r) && (r.kind == Skip ==> r.charge == 0)
    ensures if ActiveOn(b.records, r.customer, r.date) then IsRefusal(b, x, AlreadyRecorded, 1)
            else if r.charge != 0 && RolloverDue(b) then IsRefusal(b, x, RolloverRequired, 1)
            else x.error.None?
  {
    var b1, p := WithRecord(b, r), ChargePosting(r, |b.records|);
    NewSourceIsFree(b, p);
    assert SlotTaken(b.records, r.customer, r.date) <==> ActiveOn(b.records, r.customer, r.date);
    if !SlotTaken(b.records, r.customer, r.date) {
      SettlingRefused(b, b1, p, OnServiceRecorded(b.earnings, b1.records, |b.records|), 1, x);
    }
  }

  lemma {:induction false} RecordingRefused(
      b: Books, customer: nat, kind: Kind, quantity: Option<Decimal>, date: Option<Date>)
    requires Inv(b)
    ensures RecordingRefusal(b, customer, kind, quantity, On(b, date), RecordService(b, customer, kind, quantity, date))
  {
    if customer < |b.customers| && b.customers[customer].active && On(b, date).Key() <= b.today.Key() {
      var price := b.customers[customer].unitPrice;
      ResolvesExactly(kind, quantity, price);
      if IsChargeable(kind, quantity, price) {
        ChargeIsNonNegative(kind, quantity, price);
        ResolvedIsWorth(kind, quantity, price);
        var (milli, charge) := ResolveCharge(kind, quantity, price).value;
        var r := Record(customer, On(b, date), milli, price, charge, kind, Active, None, None, None, b.nextVersion);
        InsertionRefused(b, r, InsertRecord(b, r));
      }
    }
  }

  // ---- correcting and voiding a day --------------------------------------------

  ghost predicate CorrectionRefusal(
      b: Books, i: nat, kind: Kind, quantity: Option<Decimal>, blank: bool, x: Outcome)
  {
    if blank then IsRefusal(b, x, BlankReason, 0)
    else if |b.records| <= i then IsRefusal(b, x, NotFound, 0)
    else if b.records[i].status != Active then IsRefusal(b, x, NotActive, 0)
    else if !IsChargeable(kind, quantity, b.records[i].unitPrice) then IsRefusal(b, x, BadQuantity, 0)
    else if Differs(b.records[i], kind, quantity) && RolloverDue(b) then IsRefusal(b, x, RolloverRequired, 2)
    else x.error.None?
  }

  /** The correction makes a difference to the charge. */
  ghost predicate Differs(was: Record, kind: Kind, quantity: Option<Decimal>) {
    exists milli, charge :: IsCharged(kind, quantity, was.unitPrice, milli, charge) && charge != was.charge
  }

  lemma ResolvedDiffers(was: Record, kind: Kind, quantity: Option<Decimal>)
    requires ResolveCharge(kind, quantity, was.unitPrice).Some?
    ensures ResolveCharge(kind, quantity, was.unitPrice).value.1 != was.charge <==> Differs(was, kind, quantity)
  {
    var (milli, charge) := ResolveCharge(kind, quantity, was.unitPrice).value;
    ResolvedIsCharged(kind, quantity, was.unitPrice, milli, charge);
    if m, c :| IsCharged(kind, quantity, was.unitPrice, m, c) && c != was.charge {
      ChargedOnce(kind, quantity, was.unitPrice, milli, charge, m, c);
    }
  }

  lemma {:induction false} ReplacementRefused(b: Books, i: nat, r: Record, x: Outcome)
    requires Inv(b) && Replaces(b, i, r) && x == ReplaceRecord(b, i, r)
    ensures if r.charge != b.records[i].charge && RolloverDue(b) then IsRefusal(b, x, RolloverRequired, 2)
            else x.error.None?
  {
    var b1, p := WithReplacement(b, i, r), AdjustmentPosting(b.records[i], i, r.charge);
    SlotIsFreed(b.today, b.records, i);
    LiveSourceIsFree(b, p);
    SettlingRefused(b, b1, p, OnServiceCorrected(b.earnings, b1.records, i, |b.records|), 2, x);
  }

  lemma {:induction false} CorrectionRefused(b: Books, i: nat, kind: Kind, quantity: Option<Decimal>, blank: bool)
    requires Inv(b)
    ensures CorrectionRefusal(b, i, kind, quantity, blank, CorrectService(b, i, kind, quantity, blank))
  {
    if !blank && i < |b.records| && b.records[i].status == Active {
      var price := b.records[i].unitPrice;
      ResolvesExactly(kind, quantity, price);
      if IsChargeable(kind, quantity, price) {
        ChargeIsNonNegative(kind, quantity, price);
        ResolvedDiffers(b.records[i], kind, quantity);
        var (milli, charge) := ResolveCharge(kind, quantity, price).value;
        ReplacementRefused(b, i, Replacement(b, i, kind, milli, charge),
                           ReplaceRecord(b, i, Replacement(b, i, kind, milli, charge)));
      }
    }
  }

  ghost predicate VoidRefusal(b: Books, i: nat, blank: bool, x: Outcome) {
    if blank then IsRefusal(b, x, BlankReason, 0)
    else if |b.records| <= i then IsRefusal(b, x, NotFound, 0)
    else if b.records[i].status != Active then IsRefusal(b, x, NotActive, 0)
    else if b.records[i].charge != 0 && RolloverDue(b) then IsRefusal(b, x, RolloverRequired, 1)
    else x.error.None?
  }

  lemma {:induction false} VoidRefused(b: Books, i: nat, blank: bool)
    requires Inv(b)
    ensures VoidRefusal(b, i, blank, VoidService(b, i, blank))
  {
    if !blank && i < |b.records| && b.records[i].status == Active {
      var b1, p := WithoutRecord(b, i), AdjustmentPosting(b.records[i], i, 0);
      LiveSourceIsFree(b, p);
      SettlingRefused(b, b1, p, OnServiceVoided(b.earnings, b1.records, i), 1, EndRecord(b, i));
    }
  }

  // ---- payments ----------------------------------------------------------------

  ghost predicate PaymentRefusal(b: Books, customer: nat, amount: int, on: Date, x: Outcome) {
    if |b.customers| <= customer then IsRefusal(b, x, NotFound, 0)
    else if amount <= 0 then IsRefusal(b, x, BadAmount, 0)
    else if b.today.Key() < on.Key() then IsRefusal(b, x, FutureDate, 0)
    else if RolloverDue(b) then IsRefusal(b, x, RolloverRequired, 1)
    else x.error.None?
  }

  lemma {:induction false} PaymentRefused(b: Books, customer: nat, amount: int, date: Option<Date>)
    requires Inv(b)
    ensures PaymentRefusal(b, customer, amount, On(b, date), RecordPayment(b, customer, amount, date))
  {
    if customer < |b.customers| && 0 < amount && On(b, date).Key() <= b.today.Key() {
      var payment := Payment(customer, amount, On(b, date), Recorded, b.nextVersion);
      var b1, p := WithPayment(b, payment), PaymentPosting(payment, |b.payments|);
      NewSourceIsFree(b, p);
      SettlingRefused(b, b1, p, OnPaymentRecorded(b.earnings, b1.payments, |b.payments|), 1, InsertPayment(b, payment));
    }
  }

  ghost predicate ReversalRefusal(b: Books, p: nat, blank: bool, x: Outcome) {
    if blank then IsRefusal(b, x, BlankReason, 0)
    else if |b.payments| <= p then IsRefusal(b, x, NotFound, 0)
    else if b.payments[p].status != Recorded then IsRefusal(b, x, NotRecorded, 0)
    else if RolloverDue(b) then IsRefusal(b, x, RolloverRequired, 1)
    else x.error.None?
  }

  lemma {:induction false} ReversalRefused(b: Books, p: nat, blank: bool)
    requires Inv(b)
    ensures ReversalRefusal(b, p, blank, VoidPayment(b, p, blank))
  {
    if !blank && p < |b.payments| && b.payments[p].status == Recorded {
      var b1, posting := WithReversal(b, p), ReversalPosting(b.payments[p], p);
      LiveSourceIsFree(b, posting);
      SettlingRefused(b, b1, posting, OnPaymentVoided(b.earnings, b1.payments, p), 1, ReversePayment(b, p));
      assert 0 < b.payments[p].amount;
    }
  }

  // ---- closing and plans -------------------------------------------------------

  ghost predicate CloseRefusal(b: Books, k: nat, x: Outcome) {
    if |b.cycles| <= k then IsRefusal(b, x, NotFound, 0)
    else if !b.cycles[k].open then IsRefusal(b, x, NotOpen, 0)
    else if b.today.Key() <= b.cycles[k].period.end.Key() then IsRefusal(b, x, PeriodNotEnded, 0)
    else x.error.None?
  }

  lemma {:induction false} CloseRefused(b: Books, k: nat)
    requires Inv(b)
    ensures CloseRefusal(b, k, CloseCycle(b, k))
  {
    if Closable(b, k) {
      BillingKeeps(b, k);
    }
  }

  /** A plan needs valid terms and a range that the plans before it admit; nothing else of the
      books changes, and earned history stands. */
  ghost predicate PlanCreation(b: Books, plan: Plan, x: Outcome) {
    if !(match plan.terms case PerEvent(fixed) => 0 <= fixed case Rated(_, rate) => 0 <= rate <= 10_000)
    then IsRefusal(b, x, BadTerms, 0)
    else
      exists r :: IsCreation(b.earnings.plans, plan, r)
                  && match r
                     case Err(reason) => IsRefusal(b, x, PlanRefused(reason), 0)
                     case Ok(plans) => x == Outcome(b.(earnings := b.earnings.(plans := plans)), None)
  }

  lemma {:induction false} PlanCreated(b: Books, plan: Plan)
    requires Inv(b)
    ensures PlanCreation(b, plan, CreatePlan(b, plan))
  {
    CreatesExactly(b.earnings.plans, plan);
    var r := Create(b.earnings.plans, plan);
    assert IsCreation(b.earnings.plans, plan, r);
  }
}
