/** Exactly when a command is accepted in a reachable state, and what an accepted one
    writes. Unique indexes and CHECK constraints never enter into it. */
module BooksAcceptance {
  import opened Outcomes
  import opened Calendar
  import opened Money
  import opened Ranges
  import opened Records
  import opened Payments
  import opened Commission
  import opened Ledger
  import opened Books
  import opened BooksInvariants
  import opened BooksClosing

  /** No open cycle has ended before today, so business can be posted. */
  predicate CanPost(b: Books) {
    match OpenCycle(b.cycles)
    case None => true
    case Some(k) => b.today.Key() <= b.cycles[k].period.end.Key()
  }

  /** A posting goes through exactly when it is zero or the rollover has been done; it then
      adds exactly its entry, to the newest cycle. */
  lemma {:induction false} PostsExactly(b: Books, p: Posting)
    requires CyclesOk(b.today, b.startDay, b.cycles) && !KeyTaken(b.ledger, p)
    ensures PostEntry(b, p).Ok? <==> p.amount == 0 || CanPost(b)
    ensures PostEntry(b, p).Ok? && p.amount != 0 ==>
              var x := PostEntry(b, p).value;
              x.cycles != [] && x.ledger == b.ledger + [p.AsEntry(|x.cycles| - 1, b.nextVersion)]
              && x.cycles[|x.cycles| - 1].open
  {
    EnsureOpenCycleKeeps(b);
    if p.amount != 0 && EnsureOpenCycle(b).Ok? {
      var (ready, k) := EnsureOpenCycle(b).value;
      assert PostEntry(b, p) == Ok(WithEntry(ready, p.AsEntry(k, b.nextVersion)));
      if OpenCycle(b.cycles).Some? {
        OpenCycleIsNewest(b.today, b.startDay, b.cycles, OpenCycle(b.cycles).value);
      }
    }
  }

  // ---- service -----------------------------------------------------------------

  /** A record is inserted exactly when its slot is free and its charge can be posted. */
  lemma {:induction false} InsertedExactly(b: Books, record: Record)
    requires CyclesOk(b.today, b.startDay, b.cycles) && SourcesOk(b.ledger, b.records, b.payments)
    ensures InsertRecord(b, record).error.None?
            <==> !SlotTaken(b.records, record.customer, record.date)
                 && (record.kind == Skip || record.charge == 0 || CanPost(b))
    ensures InsertRecord(b, record).error.None? ==> InsertRecord(b, record).books.records == b.records + [record]
  {
    var p := ChargePosting(record, |b.records|);
    NewSourceIsFree(b, p);
    PostsExactly(WithRecord(b, record), p);
  }

  predicate Recordable(b: Books, customer: nat, kind: Kind, quantity: Option<Decimal>, on: Date) {
    customer < |b.customers| && b.customers[customer].active && on.Key() <= b.today.Key()
    && ResolveCharge(kind, quantity, b.customers[customer].unitPrice).Some?
    && !SlotTaken(b.records, customer, on)
    && (ResolveCharge(kind, quantity, b.customers[customer].unitPrice).value.1 == 0 || CanPost(b))
  }

  /** A day is recorded exactly for an active customer, not in the future, with a valid
      quantity, once, and when its charge can be posted; it snapshots today's price. */
  lemma {:induction false} ServiceAcceptedExactly(
      b: Books, customer: nat, kind: Kind, quantity: Option<Decimal>, date: Option<Date>)
    requires Inv(b)
    ensures var on := if date.Some? then date.value else b.today;
            RecordService(b, customer, kind, quantity, date).error.None?
            <==> Recordable(b, customer, kind, quantity, on)
    ensures var on, x := (if date.Some? then date.value else b.today), RecordService(b, customer, kind, quantity, date);
            x.error.None? ==>
              |x.books.records| == |b.records| + 1
              && var r := x.books.records[|b.records|];
                 r.customer == customer && r.date == on && r.kind == kind && r.status == Active && r.corrects.None?
                 && r.unitPrice == b.customers[customer].unitPrice
                 && (kind == Service ==> IsHalfUp(r.milli * r.unitPrice, 1000, r.charge))
                 && (kind == Skip ==> r.charge == 0 && r.milli == 0)
  {
    if customer < |b.customers| {
      var price := b.customers[customer].unitPrice;
      var on := if date.Some? then date.value else b.today;
      var resolved := ResolveCharge(kind, quantity, price);
      if resolved.Some? {
        RoundHalfUpIsNearest(resolved.value.0 * price, 1000, resolved.value.1);
        InsertedExactly(b, Record(customer, on, resolved.value.0, price, resolved.value.1, kind, Active,
                                  None, None, None, b.nextVersion));
      }
    }
  }

  predicate Correctable(b: Books, i: nat, kind: Kind, quantity: Option<Decimal>) {
    i < |b.records| && b.records[i].status == Active
    && ResolveCharge(kind, quantity, b.records[i].unitPrice).Some?
    && (ResolveCharge(kind, quantity, b.records[i].unitPrice).value.1 == b.records[i].charge || CanPost(b))
  }

  lemma {:induction false} ReplacedExactly(b: Books, i: nat, replacement: Record)
    requires Inv(b) && Replaces(b, i, replacement)
    ensures ReplaceRecord(b, i, replacement).error.None? <==> replacement.charge == b.records[i].charge || CanPost(b)
    ensures ReplaceRecord(b, i, replacement).error.None? ==>
              ReplaceRecord(b, i, replacement).books.records == Supersede(b.records, i, b.nextVersion, replacement)
  {
    var p := AdjustmentPosting(b.records[i], i, replacement.charge);
    SlotIsFreed(b.today, b.records, i);
    LiveSourceIsFree(b, p);
    PostsExactly(WithReplacement(b, i, replacement), p);
  }

  /** A correction whose quantity resolves is accepted whenever its difference can be
      posted, and then supersedes the original. */
  lemma {:induction false} CorrectionReplaces(b: Books, i: nat, kind: Kind, quantity: Option<Decimal>, blank: bool)
    requires Inv(b) && !blank && i < |b.records| && b.records[i].status == Active
    requires ResolveCharge(kind, quantity, b.records[i].unitPrice).Some?
    ensures var (milli, charge) := ResolveCharge(kind, quantity, b.records[i].unitPrice).value;
            var x, r := CorrectService(b, i, kind, quantity, blank), Replacement(b, i, kind, milli, charge);
            (x.error.None? <==> charge == b.records[i].charge || CanPost(b))
            && (x.error.None? ==> x.books.records == Supersede(b.records, i, b.nextVersion, r))
  {
    ChargeIsNonNegative(kind, quantity, b.records[i].unitPrice);
    var resolved := ResolveCharge(kind, quantity, b.records[i].unitPrice).value;
    ReplacedExactly(b, i, Replacement(b, i, kind, resolved.0, resolved.1));
  }

  /** An ACTIVE record can be corrected with a reason and a valid quantity, whenever the
      difference can be posted. */
  lemma {:induction false} CorrectionAcceptedExactly(
      b: Books, i: nat, kind: Kind, quantity: Option<Decimal>, blank: bool)
    requires Inv(b)
    ensures CorrectService(b, i, kind, quantity, blank).error.None? <==> !blank && Correctable(b, i, kind, quantity)
  {
    if !blank && i < |b.records| && b.records[i].status == Active
       && ResolveCharge(kind, quantity, b.records[i].unitPrice).Some? {
      CorrectionReplaces(b, i, kind, quantity, blank);
    }
  }

  /** What the customer owes moves by what a posting command posted. */
  lemma {:induction false} OwesThePosting(b: Books, b1: Books, p: Posting, earnings: Earnings, drawn: nat)
    requires CyclesOk(b1.today, b1.startDay, b1.cycles) && !KeyTaken(b1.ledger, p) && b1.ledger == b.ledger
    requires Settle(b, PostEntry(b1, p), earnings, drawn).error.None?
    ensures Outstanding(Settle(b, PostEntry(b1, p), earnings, drawn).books.ledger, Some(p.customer), None)
            == Outstanding(b.ledger, Some(p.customer), None) + p.amount
  {
    PostsExactly(b1, p);
    if p.amount != 0 {
      var x := PostEntry(b1, p).value;
      SumAppend(b1.ledger, p.AsEntry(|x.cycles| - 1, b1.nextVersion), Some(p.customer), None, Whole);
    }
  }

  lemma {:induction false} ReplacementMovesTheDebt(b: Books, i: nat, replacement: Record)
    requires Inv(b) && Replaces(b, i, replacement) && ReplaceRecord(b, i, replacement).error.None?
    ensures Outstanding(ReplaceRecord(b, i, replacement).books.ledger, Some(replacement.customer), None)
            == Outstanding(b.ledger, Some(replacement.customer), None) + replacement.charge - b.records[i].charge
  {
    var b1, p := WithReplacement(b, i, replacement), AdjustmentPosting(b.records[i], i, replacement.charge);
    LiveSourceIsFree(b, p);
    OwesThePosting(b, b1, p, OnServiceCorrected(b.earnings, b1.records, i, |b.records|), 2);
  }

  /** An accepted correction is the replacement of the record, at the resolved charge. */
  lemma {:induction false} AcceptedIsReplacement(
      b: Books, i: nat, kind: Kind, quantity: Option<Decimal>, blank: bool) returns (replacement: Record)
    requires CorrectService(b, i, kind, quantity, blank).error.None?
    ensures i < |b.records| && Replaces(b, i, replacement)
    ensures CorrectService(b, i, kind, quantity, blank) == ReplaceRecord(b, i, replacement)
    ensures replacement.unitPrice == b.records[i].unitPrice
            && replacement.adjustment == Some(replacement.charge - b.records[i].charge)
    ensures replacement.kind == kind && replacement.status == Active && replacement.version == b.nextVersion + 1
    ensures ResolveCharge(kind, quantity, b.records[i].unitPrice) == Some((replacement.milli, replacement.charge))
  {
    ChargeIsNonNegative(kind, quantity, b.records[i].unitPrice);
    var resolved := ResolveCharge(kind, quantity, b.records[i].unitPrice).value;
    replacement := Replacement(b, i, kind, resolved.0, resolved.1);
  }

  /** The table has one more record, which replaces `i`, is priced at its price and says what
      difference that made. */
  ghost predicate PricedAsOriginal(b: Books, i: nat, kind: Kind, quantity: Option<Decimal>, rs: seq<Record>) {
    i < |b.records| && |rs| == |b.records| + 1 && rs[i].supersededBy == Some(|b.records|)
    && var was, r := b.records[i], rs[|b.records|];
       r.unitPrice == was.unitPrice && r.adjustment == Some(r.charge - was.charge)
       && ResolveCharge(kind, quantity, was.unitPrice) == Some((r.milli, r.charge))
  }

  lemma {:induction false} ReplacementIsPriced(
      b: Books, i: nat, kind: Kind, quantity: Option<Decimal>, replacement: Record, rs: seq<Record>)
    requires i < |b.records| && |rs| == |b.records| + 1 && rs[i].supersededBy == Some(|b.records|)
    requires rs[|b.records|] == replacement && replacement.unitPrice == b.records[i].unitPrice
    requires replacement.adjustment == Some(replacement.charge - b.records[i].charge)
    requires ResolveCharge(kind, quantity, b.records[i].unitPrice) == Some((replacement.milli, replacement.charge))
    ensures PricedAsOriginal(b, i, kind, quantity, rs)
  {
  }

  /** An accepted correction is priced at the original's own price, whatever the customer's
      price is by then, and records the difference it made. */
  lemma {:induction false} CorrectionKeepsThePrice(
      b: Books, i: nat, kind: Kind, quantity: Option<Decimal>, blank: bool, x: Books)
    requires Inv(b) && CorrectService(b, i, kind, quantity, blank) == Outcome(x, None)
    ensures PricedAsOriginal(b, i, kind, quantity, x.records)
  {
    var replacement := AcceptedIsReplacement(b, i, kind, quantity, blank);
    ReplacedRecords(b, i, replacement, x.records);
    ReplacementIsPriced(b, i, kind, quantity, replacement, x.records);
  }

  /** The difference it records is what the customer owes more or less. */
  lemma {:induction false} CorrectionMovesTheDebt(
      b: Books, i: nat, kind: Kind, quantity: Option<Decimal>, blank: bool, x: Books)
    requires Inv(b) && CorrectService(b, i, kind, quantity, blank) == Outcome(x, None)
    ensures i < |b.records| < |x.records| && x.records[|b.records|].adjustment.Some?
    ensures var customer := Some(b.records[i].customer);
            Outstanding(x.ledger, customer, None)
            == Outstanding(b.ledger, customer, None) + x.records[|b.records|].adjustment.value
  {
    var replacement := AcceptedIsReplacement(b, i, kind, quantity, blank);
    ReplacedRecords(b, i, replacement, x.records);
    ReplacementMovesTheDebt(b, i, replacement);
  }

  lemma {:induction false} ReplacedRecords(b: Books, i: nat, replacement: Record, rs: seq<Record>)
    requires Inv(b) && Replaces(b, i, replacement) && ReplaceRecord(b, i, replacement).error.None?
    requires rs == ReplaceRecord(b, i, replacement).books.records
    ensures |rs| == |b.records| + 1 && rs[i].supersededBy == Some(|b.records|) && rs[|b.records|] == replacement
  {
    ReplacedExactly(b, i, replacement);
  }

  /** With any other customer rows, at any other price, the same correction is accepted and
      does the same. */
  lemma {:induction false} PriceChangesDoNotReachBack(
      b: Books, i: nat, kind: Kind, quantity: Option<Decimal>, blank: bool, customers: seq<Customer>)
    requires CorrectService(b, i, kind, quantity, blank).error.None?
    ensures CorrectService(b.(customers := customers), i, kind, quantity, blank)
            == Outcome(CorrectService(b, i, kind, quantity, blank).books.(customers := customers), None)
  {
    var resolved := ResolveCharge(kind, quantity, b.records[i].unitPrice).value;
    var replacement := Replacement(b, i, kind, resolved.0, resolved.1);
    assert CorrectService(b, i, kind, quantity, blank) == ReplaceRecord(b, i, replacement);
    ReplacingIgnoresCustomers(b, i, replacement, customers);
    SameReplacement(b, i, kind, quantity, blank, customers, replacement);
  }

  lemma {:induction false} SameReplacement(
      b: Books, i: nat, kind: Kind, quantity: Option<Decimal>, blank: bool, customers: seq<Customer>,
      replacement: Record)
    requires !blank && i < |b.records| && b.records[i].status == Active
    requires ResolveCharge(kind, quantity, b.records[i].unitPrice) == Some((replacement.milli, replacement.charge))
    requires replacement == Replacement(b, i, kind, replacement.milli, replacement.charge)
    ensures CorrectService(b.(customers := customers), i, kind, quantity, blank)
            == ReplaceRecord(b.(customers := customers), i, replacement)
  {
  }

  lemma {:induction false} PostingIgnoresCustomers(b: Books, p: Posting, customers: seq<Customer>)
    ensures match PostEntry(b, p)
            case Err(error) => PostEntry(b.(customers := customers), p) == Err(error)
            case Ok(x) => PostEntry(b.(customers := customers), p) == Ok(x.(customers := customers))
  {
  }

  lemma {:induction false} ReplacingIgnoresCustomers(
      b: Books, i: nat, replacement: Record, customers: seq<Customer>)
    requires i < |b.records| && ReplaceRecord(b, i, replacement).error.None?
    ensures ReplaceRecord(b.(customers := customers), i, replacement)
            == Outcome(ReplaceRecord(b, i, replacement).books.(customers := customers), None)
  {
    PostingIgnoresCustomers(WithReplacement(b, i, replacement), AdjustmentPosting(b.records[i], i, replacement.charge),
                            customers);
    assert WithReplacement(b.(customers := customers), i, replacement)
           == WithReplacement(b, i, replacement).(customers := customers);
  }

  /** An ACTIVE record can be voided with a reason whenever its charge can be posted back. */
  lemma {:induction false} VoidAcceptedExactly(b: Books, i: nat, blank: bool)
    requires Inv(b)
    ensures VoidService(b, i, blank).error.None?
            <==> !blank && i < |b.records| && b.records[i].status == Active && (b.records[i].charge == 0 || CanPost(b))
  {
    if i < |b.records| && b.records[i].status == Active {
      var p := AdjustmentPosting(b.records[i], i, 0);
      LiveSourceIsFree(b, p);
      PostsExactly(WithoutRecord(b, i), p);
    }
  }

  // ---- payments ----------------------------------------------------------------

  /** Any positive amount is taken from any known customer, overpayments included. */
  lemma {:induction false} PaymentAcceptedExactly(b: Books, customer: nat, amount: int, date: Option<Date>)
    requires Inv(b)
    ensures RecordPayment(b, customer, amount, date).error.None?
            <==> customer < |b.customers| && 0 < amount && CanPost(b)
                 && (if date.Some? then date.value else b.today).Key() <= b.today.Key()
  {
    var on := if date.Some? then date.value else b.today;
    var payment := Payment(customer, amount, on, Recorded, b.nextVersion);
    var p := PaymentPosting(payment, |b.payments|);
    NewSourceIsFree(b, p);
    PostsExactly(WithPayment(b, payment), p);
  }

  lemma {:induction false} ReversalAcceptedExactly(b: Books, p: nat, blank: bool)
    requires Inv(b)
    ensures VoidPayment(b, p, blank).error.None?
            <==> !blank && p < |b.payments| && b.payments[p].status == Recorded && CanPost(b)
  {
    if p < |b.payments| && b.payments[p].status == Recorded {
      var posting := ReversalPosting(b.payments[p], p);
      LiveSourceIsFree(b, posting);
      PostsExactly(WithReversal(b, p), posting);
    }
  }

  // ---- closing -----------------------------------------------------------------

  /** A cycle closes exactly when it is open and its period has ended; everybody with an
      entry so far gets one statement for it, and nobody else does. */
  lemma {:induction false} CloseAcceptedExactly(b: Books, k: nat)
    requires Inv(b)
    ensures CloseCycle(b, k).error.None? <==> Closable(b, k)
    ensures Closable(b, k) ==>
              var x := CloseCycle(b, k).books;
              !x.cycles[k].open
              && |x.statements| == |b.statements| + |Billable(WithClosed(b, k), k)|
              && forall i :: |b.statements| <= i < |x.statements| ==>
                   x.statements[i].cycle == k
                     && x.statements[i].customer == Billable(WithClosed(b, k), k)[i - |b.statements|]
  {
    if Closable(b, k) {
      BillingKeeps(b, k);
    }
  }

  // ---- earning -----------------------------------------------------------------

  /** A SERVICE earns exactly under a plan in force on its date whose basis is the recorded
      value or the event, on its charge and at that plan's terms. */
  lemma {:induction false} ServiceEarnsExactly(t: Earnings, rs: seq<Record>, i: nat)
    requires i < |rs| && FindEvent(t.events, OfRecord(i)).None?
    ensures var t', plan := OnServiceRecorded(t, rs, i), Effective(t.plans, rs[i].date);
            if rs[i].kind == Service && plan.Some?
               && (t.plans[plan.value].terms.PerEvent? || t.plans[plan.value].terms.basis == RecordedValue)
            then
              var terms := t.plans[plan.value].terms;
              t'.events == t.events
                + [Event(plan.value, terms, OfRecord(i), rs[i].charge, t'.events[|t.events|].commission, rs[i].date)]
              && (terms.PerEvent? ==> t'.events[|t.events|].commission == terms.fixed)
              && (terms.Rated? ==>
                    Abs(RATE_BP_SCALE * t'.events[|t.events|].commission - terms.rate * rs[i].charge) <= 5000)
            else t' == t
  {
    var plan := Effective(t.plans, rs[i].date);
    if plan.Some? && t.plans[plan.value].terms.Rated? {
      RateError(rs[i].charge, t.plans[plan.value].terms.rate);
    }
  }

  /** A payment earns exactly under a plan on the collected value. */
  lemma {:induction false} PaymentEarnsExactly(t: Earnings, ps: seq<Payment>, p: nat)
    requires p < |ps| && FindEvent(t.events, OfPayment(p)).None?
    ensures var t', plan := OnPaymentRecorded(t, ps, p), Effective(t.plans, ps[p].receivedOn);
            if plan.Some? && t.plans[plan.value].terms.Rated? && t.plans[plan.value].terms.basis == CollectedValue
            then |t'.events| == |t.events| + 1 && t'.events[|t.events|].base == ps[p].amount
                 && var rate := t.plans[plan.value].terms.rate;
                    Abs(RATE_BP_SCALE * t'.events[|t.events|].commission - rate * ps[p].amount) <= 5000
            else t' == t
  {
    var plan := Effective(t.plans, ps[p].receivedOn);
    if plan.Some? && t.plans[plan.value].terms.Rated? {
      RateError(ps[p].amount, t.plans[plan.value].terms.rate);
    }
  }

  /** A statement earns exactly under a plan on the billed value in force at the period's
      end. */
  lemma {:induction false} StatementEarnsExactly(t: Earnings, s: nat, billed: int, periodEnd: Date)
    requires FindEvent(t.events, OfStatement(s)).None?
    ensures var t', plan := OnStatementIssued(t, s, billed, periodEnd), Effective(t.plans, periodEnd);
            if plan.Some? && t.plans[plan.value].terms.Rated? && t.plans[plan.value].terms.basis == BilledValue
            then |t'.events| == |t.events| + 1 && t'.events[|t.events|].base == billed
                 && var rate := t.plans[plan.value].terms.rate;
                    Abs(RATE_BP_SCALE * t'.events[|t.events|].commission - rate * billed) <= 5000
            else t' == t
  {
    var plan := Effective(t.plans, periodEnd);
    if plan.Some? && t.plans[plan.value].terms.Rated? {
      RateError(billed, t.plans[plan.value].terms.rate);
    }
  }
}
