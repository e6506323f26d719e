/** Every state a run of commands can reach satisfies the invariant. */
module BooksRuns {
  import opened Outcomes
  import opened Calendar
  import opened Money
  import opened Ranges
  import opened Records
  import opened Payments
  import opened Commission
  import opened Ledger
  import opened Books
  import opened BooksInvariants
  import opened BooksClosing

  lemma {:induction false} RecordServiceKeeps(
      b: Books, customer: nat, kind: Kind, quantity: Option<Decimal>, date: Option<Date>)
    requires Inv(b)
    ensures Keeps(RecordService(b, customer, kind, quantity, date))
  {
    if AsksToRecord(b, customer, kind, quantity, date) {
      var on := if date.Some? then date.value else b.today;
      var price := b.customers[customer].unitPrice;
      ChargeIsNonNegative(kind, quantity, price);
      var (milli, charge) := ResolveCharge(kind, quantity, price).value;
      InsertRecordKeeps(b, Record(customer, on, milli, price, charge, kind, Active, None, None, None, b.nextVersion));
    } else {
      RefusedBeforeInserting(b, customer, kind, quantity, date);
    }
  }

  /** Every check before the insert passes. */
  predicate AsksToRecord(b: Books, customer: nat, kind: Kind, quantity: Option<Decimal>, date: Option<Date>) {
    customer < |b.customers| && b.customers[customer].active
    && (if date.Some? then date.value else b.today).Key() <= b.today.Key()
    && ResolveCharge(kind, quantity, b.customers[customer].unitPrice).Some?
  }

  lemma {:induction false} RefusedBeforeInserting(
      b: Books, customer: nat, kind: Kind, quantity: Option<Decimal>, date: Option<Date>)
    requires Inv(b) && !AsksToRecord(b, customer, kind, quantity, date)
    ensures Keeps(RecordService(b, customer, kind, quantity, date))
  {
    RefusalKeeps(b, 0);
  }

  lemma {:induction false} CorrectServiceKeeps(
      b: Books, i: nat, kind: Kind, quantity: Option<Decimal>, blankReason: bool)
    requires Inv(b)
    ensures Keeps(CorrectService(b, i, kind, quantity, blankReason))
  {
    RefusalKeeps(b, 0);
    if i < |b.records| && b.records[i].status == Active {
      ChargeIsNonNegative(kind, quantity, b.records[i].unitPrice);
      match ResolveCharge(kind, quantity, b.records[i].unitPrice)
      case None =>
      case Some((milli, charge)) => ReplaceRecordKeeps(b, i, Replacement(b, i, kind, milli, charge));
    }
  }

  lemma {:induction false} VoidServiceKeeps(b: Books, i: nat, blankReason: bool)
    requires Inv(b)
    ensures Keeps(VoidService(b, i, blankReason))
  {
    RefusalKeeps(b, 0);
    if i < |b.records| && b.records[i].status == Active {
      EndRecordKeeps(b, i);
    }
  }

  lemma {:induction false} RecordPaymentKeeps(b: Books, customer: nat, amount: int, date: Option<Date>)
    requires Inv(b)
    ensures Keeps(RecordPayment(b, customer, amount, date))
  {
    var on := if date.Some? then date.value else b.today;
    if customer < |b.customers| && 0 < amount && on.Key() <= b.today.Key() {
      var payment := Payment(customer, amount, on, Recorded, b.nextVersion);
      InsertPaymentKeeps(b, payment);
      PaymentIsInserted(b, customer, amount, date, payment);
    } else {
      RefusalKeeps(b, 0);
    }
  }

  lemma PaymentIsInserted(b: Books, customer: nat, amount: int, date: Option<Date>, payment: Payment)
    requires customer < |b.customers| && 0 < amount && payment.receivedOn.Key() <= b.today.Key()
    requires payment == Payment(customer, amount, if date.Some? then date.value else b.today, Recorded, b.nextVersion)
    ensures RecordPayment(b, customer, amount, date) == InsertPayment(b, payment)
  {
  }

  lemma {:induction false} VoidPaymentKeeps(b: Books, p: nat, blankReason: bool)
    requires Inv(b)
    ensures Keeps(VoidPayment(b, p, blankReason))
  {
    RefusalKeeps(b, 0);
    if p < |b.payments| && b.payments[p].status == Recorded {
      ReversePaymentKeeps(b, p);
    }
  }

  lemma {:induction false} CreatePlanKeeps(b: Books, plan: Plan)
    requires Inv(b)
    ensures Keeps(CreatePlan(b, plan))
  {
    if ValidTerms(plan.terms) && Create(b.earnings.plans, plan).Ok? {
      NewPlanKeeps(b.records, b.payments, BilledValues(b.statements), b.earnings, plan);
      EarningsReplaced(b, b.earnings.(plans := Create(b.earnings.plans, plan).value));
    } else {
      RefusalKeeps(b, 0);
    }
  }

  lemma {:induction false} EarningsReplaced(b: Books, earnings: Earnings)
    requires Inv(b) && EarningsOk(b.(earnings := earnings))
    ensures Inv(b.(earnings := earnings))
  {
  }

  /** Time only makes closed cycles and past dates more so. */
  lemma {:induction false} LaterCyclesOk(today: Date, later: Date, startDay: StartDay, cycles: seq<Cycle>)
    requires CyclesOk(today, startDay, cycles) && today.Key() <= later.Key()
    ensures CyclesOk(later, startDay, cycles)
  {
  }

  lemma {:induction false} AdvanceKeeps(b: Books, today: Date)
    requires Inv(b) && b.today.Key() <= today.Key()
    ensures Inv(b.(today := today))
  {
    LaterCyclesOk(b.today, today, b.startDay, b.cycles);
    assert RecordsOk(today, b.records);
    assert PaymentsOk(today, b.payments);
  }

  /** Only their versions matter to the tables' invariant. */
  lemma {:induction false} CustomersDoNotMatter(b: Books, customers: seq<Customer>, nextVersion: nat)
    requires Inv(b) && b.nextVersion <= nextVersion
    requires forall i :: 0 <= i < |customers| ==> customers[i].version < nextVersion
    ensures Inv(b.(customers := customers, nextVersion := nextVersion))
  {
  }

  lemma {:induction false} PutCustomerKeeps(b: Books, customer: nat, row: Customer)
    requires Inv(b)
    ensures Keeps(PutCustomer(b, customer, row))
  {
    if customer <= |b.customers| {
      CustomersDoNotMatter(b, PutCustomer(b, customer, row).books.customers, b.nextVersion + 1);
    } else {
      RefusalKeeps(b, 0);
    }
  }

  predicate IsPosting(cmd: Command) {
    cmd.RecordServiceCmd? || cmd.CorrectServiceCmd? || cmd.VoidServiceCmd? || cmd.RecordPaymentCmd?
      || cmd.VoidPaymentCmd?
  }

  lemma {:induction false} PostingCommandKeeps(b: Books, cmd: Command)
    requires Inv(b) && IsPosting(cmd)
    ensures Keeps(Apply(b, cmd))
  {
    match cmd
    case RecordServiceCmd(customer, kind, quantity, date) => RecordServiceKeeps(b, customer, kind, quantity, date);
    case CorrectServiceCmd(record, kind, quantity, blank) => CorrectServiceKeeps(b, record, kind, quantity, blank);
    case VoidServiceCmd(record, blank) => VoidServiceKeeps(b, record, blank);
    case RecordPaymentCmd(customer, amount, date) => RecordPaymentKeeps(b, customer, amount, date);
    case VoidPaymentCmd(payment, blank) => VoidPaymentKeeps(b, payment, blank);
  }

  lemma {:induction false} AdvanceCommandKeeps(b: Books, today: Date)
    requires Inv(b)
    ensures Keeps(Outcome(Advanced(b, today), None))
  {
    if b.today.Key() <= today.Key() {
      AdvanceKeeps(b, today);
      assert Advanced(b, today) == b.(today := today);
    } else {
      assert Advanced(b, today) == b;
    }
  }

  /** Every command, on every input, keeps the invariant. */
  lemma {:induction false} ApplyKeeps(b: Books, cmd: Command)
    requires Inv(b)
    ensures Keeps(Apply(b, cmd))
  {
    if IsPosting(cmd) {
      PostingCommandKeeps(b, cmd);
    } else if cmd.CloseCycleCmd? {
      CloseCycleKeeps(b, cmd.cycle);
    } else if cmd.CreatePlanCmd? {
      CreatePlanKeeps(b, cmd.plan);
    } else if cmd.AdvanceTo? {
      AdvanceCommandKeeps(b, cmd.today);
    } else if cmd.SetCustomer? {
      PutCustomerKeeps(b, cmd.customer, cmd.row);
    } else {
      RefusalKeeps(b, cmd.count);
    }
  }

  lemma {:induction false} EmptyBooksHold(b: Books)
    requires b.records == [] && b.payments == [] && b.ledger == [] && b.cycles == [] && b.statements == []
    requires b.customers == []
    requires b.earnings.plans == [] && b.earnings.events == [] && b.earnings.adjustments == []
    ensures Inv(b)
  {
    NothingEarned(b.records, b.payments, BilledValues(b.statements), b.earnings);
  }

  lemma {:induction false} NothingEarned(rs: seq<Record>, ps: seq<Payment>, billed: seq<int>, t: Earnings)
    requires rs == [] && t.plans == [] && t.events == [] && t.adjustments == []
    ensures Ordered(t.plans) && CommissionInv(rs, ps, billed, t)
  {
  }

  /** Over every run the invariant holds, and the last command is never refused by a
      unique index or a CHECK constraint: those are unreachable. */
  lemma {:induction false} RunKeeps(today: Date, startDay: StartDay, commands: seq<Command>)
    ensures Inv(Run(today, startDay, commands))
    ensures forall cmd :: Keeps(Apply(Run(today, startDay, commands), cmd))
  {
    EmptyBooksHold(Initial(today, startDay));
    if commands != [] {
      RunKeeps(today, startDay, commands[..|commands| - 1]);
    }
    forall cmd ensures Keeps(Apply(Run(today, startDay, commands), cmd)) {
      ApplyKeeps(Run(today, startDay, commands), cmd);
    }
  }
}
