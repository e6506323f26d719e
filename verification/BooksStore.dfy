/** One tenant's tables, updated in place the way the commands update them. Every command
    is one transaction: a refusal rolls back everything but the drawn version numbers.
    Each method is proved to do what the specification function of `Books` says. */
module BooksStore {
  import opened Outcomes
  import opened Calendar
  import opened Money
  import opened Ranges
  import opened Records
  import opened Payments
  import opened Commission
  import opened Ledger
  import opened Books
  import opened BooksInvariants
  import opened BooksCommands

  /** From any state that the invariant holds of: refused for the reason it should be, or all
      that it should leave behind. */
  ghost predicate DoesAsAsked(b: Books, cmd: Command, x: Outcome) {
    Inv(b) ==> Does(b, cmd, x)
  }

  lemma {:induction false} SpecifiedDoes(b: Books, cmd: Command)
    ensures DoesAsAsked(b, cmd, Apply(b, cmd))
  {
    if Inv(b) {
      EveryCommandDoes(b, cmd, Apply(b, cmd));
    }
  }

  class Store {
    var today: Date
    const startDay: StartDay
    var nextVersion: nat
    var customers: seq<Customer>
    var records: seq<Record>
    var payments: seq<Payment>
    var ledger: seq<Entry>
    var cycles: seq<Cycle>
    var statements: seq<Statement>
    var plans: seq<Plan>
    var events: seq<Event>
    var adjustments: seq<Adjustment>

    function View(): Books
      reads this
    {
      Books(today, startDay, nextVersion, customers, records, payments, ledger, cycles, statements,
            Earnings(plans, events, adjustments))
    }

    constructor (today: Date, startDay: StartDay)
      ensures View() == Initial(today, startDay)
    {
      this.today, this.startDay, nextVersion := today, startDay, 1;
      customers, records, payments, ledger, cycles, statements := [], [], [], [], [], [];
      plans, events, adjustments := [], [], [];
    }

    // ---- transactions ----------------------------------------------------------

    /** The sequence is not transactional: a rollback never gives a number back. */
    method NextVersion() returns (version: nat)
      modifies `nextVersion
      ensures version == old(nextVersion) && nextVersion == old(nextVersion) + 1
    {
      version := nextVersion;
      nextVersion := nextVersion + 1;
    }

    method Rollback(saved: Books)
      requires saved.startDay == startDay
      modifies this
      ensures View() == saved.(nextVersion := old(nextVersion))
    {
      today, customers := saved.today, saved.customers;
      records, payments, ledger := saved.records, saved.payments, saved.ledger;
      cycles, statements := saved.cycles, saved.statements;
      plans, events, adjustments := saved.earnings.plans, saved.earnings.events, saved.earnings.adjustments;
    }

    // ---- commission ------------------------------------------------------------

    /** The record and every record it corrects, walking back with a guard against
        revisiting; it ends on any table, however its links run. */
    method ChainIds(i: nat) returns (ids: seq<nat>)
      requires i < |records|
      ensures Chained(records) ==> forall x :: x in ids <==> x in Chain(records, i)
      ensures forall x, y :: 0 <= x < y < |ids| ==> ids[x] != ids[y]
    {
      ids := [i];
      var corrects := records[i].corrects;
      var seen := {i};
      ghost var unseen := Below(|records|) - {i};
      ghost var at: nat := i;
      while corrects.Some? && corrects.value !in seen
        invariant at < |records| && (corrects == records[at].corrects || (corrects.None? && !Chained(records)))
        invariant forall x :: x in ids <==> x in seen
        invariant forall x, y :: 0 <= x < y < |ids| ==> ids[x] != ids[y]
        invariant forall x :: 0 <= x < |records| ==> x in unseen || x in seen
        invariant unseen !! seen
        invariant at in seen
        invariant Chained(records) ==>
                    (forall x :: x in seen ==> at <= x)
                    && (forall x :: x in Chain(records, i) <==> x in seen || x in Chain(records, at))
        decreases unseen, corrects.Some?
      {
        ids := ids + [corrects.value];
        seen := seen + {corrects.value};
        if corrects.value < |records| {
          at := corrects.value;
          unseen := unseen - {at};
          corrects := records[corrects.value].corrects;
        } else {
          corrects := None;
        }
      }
    }

    method CreateEvent(plan: nat, source: Source, base: int, occurredOn: Date)
      requires plan < |plans|
      modifies `events
      ensures View().earnings == Commission.CreateEvent(old(View().earnings), plan, source, base, occurredOn)
    {
      if FindEvent(events, source).None? {
        var terms := plans[plan].terms;
        events := events + [Event(plan, terms, source, base, CommissionFor(terms, base), occurredOn)];
      }
    }

    method CreateAdjustment(event: nat, amount: int, source: Source)
      modifies `adjustments
      ensures View().earnings == Commission.CreateAdjustment(old(View().earnings), event, amount, source)
    {
      if !HasAdjustment(adjustments, source) {
        adjustments := adjustments + [Adjustment(event, amount, source)];
      }
    }

    method ServiceRecorded(i: nat)
      requires i < |records|
      modifies `events
      ensures View().earnings == OnServiceRecorded(old(View().earnings), records, i)
    {
      if records[i].kind == Service {
        var plan := Effective(plans, records[i].date);
        if plan.Some? {
          var terms := plans[plan.value].terms;
          if terms.PerEvent? || terms.basis == RecordedValue {
            CreateEvent(plan.value, OfRecord(i), records[i].charge, records[i].date);
          }
        }
      }
    }

    /** The chain's event, found through the loop over its links. */
    method FindChainEvent(i: nat) returns (event: Option<nat>)
      requires i < |records| && Chained(records)
      ensures event == ChainEvent(events, Chain(records, i))
    {
      var ids := ChainIds(i);
      var found := set x | x in ids;
      assert found == Chain(records, i);
      event := ChainEvent(events, found);
    }

    method ServiceCorrected(original: nat, replacement: nat)
      requires original < |records| && replacement < |records| && Chained(records)
      modifies `events, `adjustments
      ensures View().earnings == OnServiceCorrected(old(View().earnings), records, original, replacement)
    {
      var event := FindChainEvent(original);
      if event.None? {
        if records[replacement].kind == Service {
          ServiceRecorded(replacement);
        }
      } else {
        var amount := AdjustmentFor(events[event.value].terms, records[replacement].charge - records[original].charge,
                                    records[replacement].kind == Service);
        CreateAdjustment(event.value, amount, OfRecord(original));
      }
    }

    method ServiceVoided(i: nat)
      requires i < |records| && Chained(records)
      modifies `adjustments
      ensures View().earnings == OnServiceVoided(old(View().earnings), records, i)
    {
      var event := FindChainEvent(i);
      if event.Some? {
        CreateAdjustment(event.value, AdjustmentFor(events[event.value].terms, -records[i].charge, false), OfRecord(i));
      }
    }

    method PaymentRecorded(p: nat)
      requires p < |payments|
      modifies `events
      ensures View().earnings == OnPaymentRecorded(old(View().earnings), payments, p)
    {
      var plan := Effective(plans, payments[p].receivedOn);
      if plan.Some? && plans[plan.value].terms.Rated? && plans[plan.value].terms.basis == CollectedValue {
        CreateEvent(plan.value, OfPayment(p), payments[p].amount, payments[p].receivedOn);
      }
    }

    method PaymentVoided(p: nat)
      requires p < |payments|
      modifies `adjustments
      ensures View().earnings == OnPaymentVoided(old(View().earnings), payments, p)
    {
      var event := FindEvent(events, OfPayment(p));
      if event.Some? {
        CreateAdjustment(event.value, AdjustmentFor(events[event.value].terms, -payments[p].amount, false),
                         OfPayment(p));
      }
    }

    method StatementIssued(s: nat, periodEnd: Date)
      requires s < |statements|
      modifies `events
      ensures View().earnings == OnStatementIssued(old(View().earnings), s, Billed(statements[s]), periodEnd)
    {
      var plan := Effective(plans, periodEnd);
      if plan.Some? && plans[plan.value].terms.Rated? && plans[plan.value].terms.basis == BilledValue {
        CreateEvent(plan.value, OfStatement(s), Billed(statements[s]), periodEnd);
      }
    }

    // ---- cycles and ledger -----------------------------------------------------

    method OpenOrCreateCycle() returns (r: Result<nat, Error>)
      modifies `cycles
      ensures match EnsureOpenCycle(old(View()))
              case Err(error) => r == Err(error) && View() == old(View())
              case Ok((ready, k)) => r == Ok(k) && View() == ready
    {
      var existing := OpenCycle(cycles);
      if existing.Some? {
        if cycles[existing.value].period.end.Key() < today.Key() {
          return Err(RolloverRequired);
        }
        return Ok(existing.value);
      }
      var period := PeriodBounds(startDay, today);
      if exists i :: 0 <= i < |cycles| && cycles[i].period.start == period.start {
        return Err(Integrity(CycleStart));
      }
      cycles := cycles + [Cycle(period, true)];
      return Ok(|cycles| - 1);
    }

    /** Append one entry, or none for a zero amount. */
    method Post(p: Posting) returns (error: Option<Error>)
      modifies `cycles, `ledger, `nextVersion
      ensures match PostEntry(old(View()), p)
              case Err(e) => error == Some(e) && nextVersion == old(nextVersion)
              case Ok(b2) => error.None? && View() == b2
    {
      if p.amount == 0 {
        return None;
      }
      var cycle := OpenOrCreateCycle();
      if cycle.Err? {
        return Some(cycle.error);
      }
      if KeyTaken(ledger, p) {
        return Some(Integrity(LedgerKey));
      }
      var version := NextVersion();
      ledger := ledger + [p.AsEntry(cycle.value, version)];
      return None;
    }

    // ---- daily service ---------------------------------------------------------

    method AddRecord(record: Record) returns (error: Option<Error>)
      requires record.version == nextVersion
      modifies this
      ensures InsertRecord(old(View()), record) == Outcome(View(), error)
    {
      var saved, i := View(), |records|;
      var _ := NextVersion();
      if SlotTaken(records, record.customer, record.date) {
        error := Some(AlreadyRecorded);
      } else {
        records := records + [record];
        assert View() == WithRecord(saved, record);
        error := Post(ChargePosting(record, i));
        if error.None? {
          ServiceRecorded(i);
        }
      }
      if error.Some? {
        Rollback(saved);
      }
    }

    method Record(customer: nat, kind: Kind, quantity: Option<Decimal>, date: Option<Date>)
      returns (error: Option<Error>)
      modifies this
      ensures RecordService(old(View()), customer, kind, quantity, date) == Outcome(View(), error)
      ensures DoesAsAsked(old(View()), RecordServiceCmd(customer, kind, quantity, date), Outcome(View(), error))
    {
      SpecifiedDoes(View(), RecordServiceCmd(customer, kind, quantity, date));
      if |customers| <= customer {
        return Some(NotFound);
      }
      if !customers[customer].active {
        return Some(InactiveCustomer);
      }
      var on := if date.Some? then date.value else today;
      if today.Key() < on.Key() {
        return Some(FutureDate);
      }
      var price := customers[customer].unitPrice;
      var resolved := ResolveCharge(kind, quantity, price);
      if resolved.None? {
        return Some(BadQuantity);
      }
      var (milli, charge) := resolved.value;
      error := AddRecord(Records.Record(customer, on, milli, price, charge, kind, Active, None, None, None,
                                        nextVersion));
    }

    /** The active slot is freed first, and the superseded row draws its version before
        the replacement draws its own. */
    method SupersedeRow(i: nat, kind: Kind, milli: int, charge: int) returns (ok: bool)
      requires i < |records| && Chained(records) && records[i].status == Active
      modifies `records, `nextVersion
      ensures nextVersion == old(nextVersion) + 2
      ensures ok <==> !SlotTaken(old(records)[i := old(records)[i].(status := Superseded)],
                                 old(records)[i].customer, old(records)[i].date)
      ensures ok ==> View() == WithReplacement(old(View()), i, Replacement(old(View()), i, kind, milli, charge))
      ensures ok ==> Chained(records) && |records| == |old(records)| + 1
    {
      ghost var before := records;
      var original, j := records[i], |records|;
      var freed := NextVersion();
      records := records[i := original.(status := Superseded, version := freed)];
      SlotsIgnoreVersions(before, i, freed, original.customer, original.date);
      var version := NextVersion();
      ok := !SlotTaken(records, original.customer, original.date);
      if ok {
        var replacement := Records.Record(original.customer, original.date, milli, original.unitPrice, charge, kind,
                                          Active, Some(i), None, Some(charge - original.charge), version);
        records := records + [replacement];
        records := records[i := records[i].(supersededBy := Some(j))];
        assert records == Supersede(before, i, freed, replacement);
        SupersedeKeepsChained(before, i, freed, replacement);
      }
    }

    method Replace(i: nat, kind: Kind, milli: int, charge: int) returns (error: Option<Error>)
      requires i < |records| && records[i].status == Active && Chained(records)
      modifies this
      ensures ReplaceRecord(old(View()), i, Replacement(old(View()), i, kind, milli, charge)) == Outcome(View(), error)
    {
      var saved, j := View(), |records|;
      var freed := SupersedeRow(i, kind, milli, charge);
      if !freed {
        error := Some(Integrity(ActiveDay));
      } else {
        error := Post(AdjustmentPosting(saved.records[i], i, charge));
        if error.None? {
          ServiceCorrected(i, j);
        }
      }
      if error.Some? {
        Rollback(saved);
      }
    }

    method Correct(i: nat, kind: Kind, quantity: Option<Decimal>, blankReason: bool) returns (error: Option<Error>)
      requires Chained(records)
      modifies this
      ensures CorrectService(old(View()), i, kind, quantity, blankReason) == Outcome(View(), error)
      ensures DoesAsAsked(old(View()), CorrectServiceCmd(i, kind, quantity, blankReason), Outcome(View(), error))
    {
      SpecifiedDoes(View(), CorrectServiceCmd(i, kind, quantity, blankReason));
      if blankReason {
        return Some(BlankReason);
      }
      if |records| <= i {
        return Some(NotFound);
      }
      if records[i].status != Active {
        return Some(NotActive);
      }
      var resolved := ResolveCharge(kind, quantity, records[i].unitPrice);
      if resolved.None? {
        return Some(BadQuantity);
      }
      var (milli, charge) := resolved.value;
      error := Replace(i, kind, milli, charge);
    }

    method EndRow(i: nat) returns (error: Option<Error>)
      requires i < |records| && records[i].status == Active && Chained(records)
      modifies this
      ensures EndRecord(old(View()), i) == Outcome(View(), error)
    {
      var saved, record := View(), records[i];
      var version := NextVersion();
      records := records[i := record.(status := Voided, version := version)];
      VoidKeepsChains(saved.records, i, version, i);
      assert View() == WithoutRecord(saved, i);
      error := Post(AdjustmentPosting(record, i, 0));
      if error.None? {
        ServiceVoided(i);
      } else {
        Rollback(saved);
      }
    }

    method Void(i: nat, blankReason: bool) returns (error: Option<Error>)
      requires Chained(records)
      modifies this
      ensures VoidService(old(View()), i, blankReason) == Outcome(View(), error)
      ensures DoesAsAsked(old(View()), VoidServiceCmd(i, blankReason), Outcome(View(), error))
    {
      SpecifiedDoes(View(), VoidServiceCmd(i, blankReason));
      if blankReason {
        return Some(BlankReason);
      }
      if |records| <= i {
        return Some(NotFound);
      }
      if records[i].status != Active {
        return Some(NotActive);
      }
      error := EndRow(i);
    }

    // ---- payments --------------------------------------------------------------

    method Pay(customer: nat, amount: int, receivedOn: Option<Date>) returns (error: Option<Error>)
      modifies this
      ensures RecordPayment(old(View()), customer, amount, receivedOn) == Outcome(View(), error)
      ensures DoesAsAsked(old(View()), RecordPaymentCmd(customer, amount, receivedOn), Outcome(View(), error))
    {
      SpecifiedDoes(View(), RecordPaymentCmd(customer, amount, receivedOn));
      if |customers| <= customer {
        return Some(NotFound);
      }
      if amount <= 0 {
        return Some(BadAmount);
      }
      var on := if receivedOn.Some? then receivedOn.value else today;
      if today.Key() < on.Key() {
        return Some(FutureDate);
      }
      error := AddPayment(Payment(customer, amount, on, Recorded, nextVersion));
    }

    method AddPayment(payment: Payment) returns (error: Option<Error>)
      requires payment.version == nextVersion
      modifies this
      ensures InsertPayment(old(View()), payment) == Outcome(View(), error)
    {
      var saved, p := View(), |payments|;
      var _ := NextVersion();
      payments := payments + [payment];
      assert View() == WithPayment(saved, payment);
      error := Post(PaymentPosting(payment, p));
      if error.None? {
        PaymentRecorded(p);
      } else {
        Rollback(saved);
      }
    }

    method VoidPaid(p: nat, blankReason: bool) returns (error: Option<Error>)
      modifies this
      ensures VoidPayment(old(View()), p, blankReason) == Outcome(View(), error)
      ensures DoesAsAsked(old(View()), VoidPaymentCmd(p, blankReason), Outcome(View(), error))
    {
      SpecifiedDoes(View(), VoidPaymentCmd(p, blankReason));
      if blankReason {
        return Some(BlankReason);
      }
      if |payments| <= p {
        return Some(NotFound);
      }
      if payments[p].status != Recorded {
        return Some(NotRecorded);
      }
      error := ReverseRow(p);
    }

    method ReverseRow(p: nat) returns (error: Option<Error>)
      requires p < |payments|
      modifies this
      ensures ReversePayment(old(View()), p) == Outcome(View(), error)
    {
      var saved, payment := View(), payments[p];
      var version := NextVersion();
      payments := payments[p := payment.(status := Reversed, version := version)];
      assert View() == WithReversal(saved, p);
      error := Post(ReversalPosting(payment, p));
      if error.None? {
        PaymentVoided(p);
      } else {
        Rollback(saved);
      }
    }

    // ---- customers -------------------------------------------------------------

    method Put(customer: nat, row: Customer) returns (error: Option<Error>)
      modifies `customers, `nextVersion
      ensures PutCustomer(old(View()), customer, row) == Outcome(View(), error)
    {
      if |customers| < customer {
        return Some(NotFound);
      }
      var version := NextVersion();
      var put := row.(version := version);
      if customer < |customers| {
        customers := customers[customer := put];
      } else {
        customers := customers + [put];
      }
      return None;
    }

    // ---- closing ---------------------------------------------------------------

    method IssueOne(k: nat, customer: nat) returns (error: Option<Error>)
      requires k < |cycles|
      modifies `statements, `nextVersion
      ensures match IssueStatement(old(View()), k, customer)
              case Err(e) => error == Some(e)
              case Ok(issued) => error.None? && View() == issued
    {
      var s := DraftStatement(View(), k, customer);
      if StatementKeyTaken(statements, customer, k) {
        return Some(Integrity(StatementKey));
      }
      if s.charges < 0 || s.payments < 0 || s.paymentReversals < 0 {
        return Some(Integrity(StatementChecks));
      }
      var _ := NextVersion();
      statements := statements + [s];
      return None;
    }

    /** One immutable statement per billable customer. */
    method Issue(k: nat, customers: seq<nat>) returns (error: Option<Error>)
      requires k < |cycles|
      modifies `statements, `nextVersion
      ensures match IssueStatements(old(View()), k, customers)
              case Err(e) => error == Some(e)
              case Ok(issued) => error.None? && View() == issued
    {
      ghost var before := View();
      var i := 0;
      while i < |customers|
        invariant 0 <= i <= |customers| && k < |cycles|
        invariant IssueStatements(before, k, customers[..i]) == Ok(View())
      {
        assert customers[..i + 1][..i] == customers[..i];
        error := IssueOne(k, customers[i]);
        if error.Some? {
          IssuingStops(before, k, customers, i + 1);
          return error;
        }
        i := i + 1;
      }
      assert customers[..i] == customers;
      return None;
    }

    /** Commission on the statements just issued. */
    method Earn(from: nat, periodEnd: Date)
      requires from <= |statements|
      modifies `events
      ensures View().earnings == EarnOnStatements(old(View().earnings), statements, from, periodEnd)
    {
      ghost var t := View().earnings;
      var i := from;
      while i < |statements|
        invariant from <= i <= |statements|
        invariant View().earnings == EarnOnStatements(t, statements[..i], from, periodEnd)
      {
        assert statements[..i + 1][..i] == statements[..i];
        StatementIssued(i, periodEnd);
        i := i + 1;
      }
      assert statements[..i] == statements;
    }

    method Close(k: nat) returns (error: Option<Error>)
      modifies this
      ensures CloseCycle(old(View()), k) == Outcome(View(), error)
      ensures DoesAsAsked(old(View()), CloseCycleCmd(k), Outcome(View(), error))
    {
      SpecifiedDoes(View(), CloseCycleCmd(k));
      if |cycles| <= k {
        return Some(NotFound);
      }
      if !cycles[k].open {
        return Some(NotOpen);
      }
      if today.Key() <= cycles[k].period.end.Key() {
        return Some(PeriodNotEnded);
      }
      error := CloseAndBill(k);
    }

    /** Close the row, issue the statements and let them earn, or roll it all back. */
    method CloseAndBill(k: nat) returns (error: Option<Error>)
      requires k < |cycles|
      modifies this
      ensures match BillCycle(WithClosed(old(View()), k), k)
              case Err(e) => Refuse(old(View()), e, |Billable(WithClosed(old(View()), k), k)|) == Outcome(View(), error)
              case Ok(billed) => Outcome(billed, None) == Outcome(View(), error)
    {
      var saved, issuedBefore := View(), |statements|;
      cycles := cycles[k := cycles[k].(open := false)];
      var billable := Billable(View(), k);
      error := Issue(k, billable);
      if error.None? {
        Earn(issuedBefore, cycles[k].period.end);
      } else {
        Rollback(saved);
        nextVersion := saved.nextVersion + |billable|;  // every row had drawn before the flush
      }
    }
  }

  /** Whether a slot is taken does not depend on row versions. */
  lemma {:induction false} SlotsIgnoreVersions(rs: seq<Record>, i: nat, version: nat, customer: nat, date: Date)
    requires i < |rs|
    ensures SlotTaken(rs[i := rs[i].(status := Superseded, version := version)], customer, date)
            <==> SlotTaken(rs[i := rs[i].(status := Superseded)], customer, date)
  {
    var a, b := rs[i := rs[i].(status := Superseded, version := version)], rs[i := rs[i].(status := Superseded)];
    assert forall x :: 0 <= x < |rs| ==>
             a[x].status == b[x].status && a[x].customer == b[x].customer && a[x].date == b[x].date;
  }

  /** The first statement that cannot be issued decides the whole batch. */
  lemma {:induction false} IssuingStops(b: Books, k: nat, customers: seq<nat>, n: nat)
    requires k < |b.cycles| && n <= |customers| && IssueStatements(b, k, customers[..n]).Err?
    ensures IssueStatements(b, k, customers) == IssueStatements(b, k, customers[..n])
  {
    if n < |customers| {
      var last := |customers| - 1;
      assert customers[..last][..n] == customers[..n];
      IssuingStops(b, k, customers[..last], n);
    } else {
      assert customers[..n] == customers;
    }
  }
}
