/** What deliveries do to the books: one effect per operation id, which stays that id's own,
    and exactly when a delivery takes effect, a late one included. */
module OperationEffects {
  import opened Outcomes
  import opened Calendar
  import opened Money
  import opened Payments
  import opened Ranges
  import opened Records
  import opened Commission
  import opened Books
  import opened BooksInvariants
  import opened BooksClosing
  import opened BooksRuns
  import opened BooksAcceptance
  import opened BooksHistory
  import opened Registers
  import opened Folds
  import opened Operations

  // ---- documents stand ---------------------------------------------------------

  /** A record is as it was, or has ended since. */
  ghost predicate RecordStands(r: Record, s: Record) {
    s == r.(status := s.status, version := s.version, supersededBy := s.supersededBy) && (r.status != Active ==> s == r)
  }

  ghost predicate PaymentStands(p: Payment, q: Payment) {
    q == p.(status := q.status, version := q.version) && (p.status == Reversed ==> q == p)
  }

  ghost predicate CycleStands(c: Cycle, e: Cycle) {
    e == c.(open := e.open) && (!c.open ==> e == c)
  }

  ghost predicate RecordsStand(rs: seq<Record>, rs': seq<Record>) {
    |rs| <= |rs'| && forall i :: 0 <= i < |rs| ==> RecordStands(rs[i], rs'[i])
  }

  ghost predicate PaymentsStand(ps: seq<Payment>, ps': seq<Payment>) {
    |ps| <= |ps'| && forall i :: 0 <= i < |ps| ==> PaymentStands(ps[i], ps'[i])
  }

  ghost predicate CyclesStand(cs: seq<Cycle>, cs': seq<Cycle>) {
    |cs| <= |cs'| && forall i :: 0 <= i < |cs| ==> CycleStands(cs[i], cs'[i])
  }

  ghost predicate DocumentsStand(b: Books, x: Books) {
    RecordsStand(b.records, x.records) && PaymentsStand(b.payments, x.payments) && CyclesStand(b.cycles, x.cycles)
  }

  lemma {:induction false} StepKeepsRecords(b: Books, rs': seq<Record>)
    requires RecordStep(b, rs')
    ensures RecordsStand(b.records, rs')
  {
  }

  lemma {:induction false} ServiceKeepsPayments(b: Books, cmd: Command)
    requires cmd.RecordServiceCmd? || cmd.CorrectServiceCmd? || cmd.VoidServiceCmd?
    ensures Apply(b, cmd).books.payments == b.payments
  {
  }

  lemma {:induction false} CommandKeepsPayments(b: Books, cmd: Command)
    ensures PaymentsStand(b.payments, Apply(b, cmd).books.payments)
  {
    if cmd.RecordServiceCmd? || cmd.CorrectServiceCmd? || cmd.VoidServiceCmd? {
      ServiceKeepsPayments(b, cmd);
    } else if cmd.CloseCycleCmd? {
      ClosingKeepsPayments(b, cmd.cycle);
    } else if cmd.RecordPaymentCmd? || cmd.VoidPaymentCmd? {
      PaymentKeepsPayments(b, cmd);
    }
  }

  lemma {:induction false} PaymentKeepsPayments(b: Books, cmd: Command)
    requires cmd.RecordPaymentCmd? || cmd.VoidPaymentCmd?
    ensures PaymentsStand(b.payments, Apply(b, cmd).books.payments)
  {
    if cmd.VoidPaymentCmd? && cmd.payment < |b.payments| && b.payments[cmd.payment].status == Recorded {
      ReversingKeepsPayments(b, cmd.payment);
    }
  }

  lemma {:induction false} ReversingKeepsPayments(b: Books, p: nat)
    requires p < |b.payments| && b.payments[p].status == Recorded
    ensures PaymentsStand(b.payments, ReversePayment(b, p).books.payments)
  {
    SettleKeepsDocuments(b, WithReversal(b, p), ReversalPosting(b.payments[p], p),
                         OnPaymentVoided(b.earnings, WithReversal(b, p).payments, p), 1);
  }

  lemma {:induction false} ClosingKeepsPayments(b: Books, k: nat)
    ensures CloseCycle(b, k).books.payments == b.payments
    ensures CyclesStand(b.cycles, CloseCycle(b, k).books.cycles)
  {
  }

  lemma {:induction false} PostingKeepsCycles(b: Books, p: Posting)
    ensures PostEntry(b, p).Ok? ==> CyclesStand(b.cycles, PostEntry(b, p).value.cycles)
  {
  }

  lemma {:induction false} SettlingKeepsCycles(b: Books, b1: Books, p: Posting, earnings: Earnings, drawn: nat)
    requires b1.cycles == b.cycles
    ensures CyclesStand(b.cycles, Settle(b, PostEntry(b1, p), earnings, drawn).books.cycles)
  {
    PostingKeepsCycles(b1, p);
  }

  lemma {:induction false} InsertingKeepsCycles(b: Books, record: Record)
    ensures CyclesStand(b.cycles, InsertRecord(b, record).books.cycles)
  {
    var b1 := WithRecord(b, record);
    SettlingKeepsCycles(b, b1, ChargePosting(record, |b.records|),
                        OnServiceRecorded(b.earnings, b1.records, |b.records|), 1);
  }

  lemma {:induction false} ReplacingKeepsCycles(b: Books, i: nat, replacement: Record)
    requires i < |b.records|
    ensures CyclesStand(b.cycles, ReplaceRecord(b, i, replacement).books.cycles)
  {
    var b1 := WithReplacement(b, i, replacement);
    SettlingKeepsCycles(b, b1, AdjustmentPosting(b.records[i], i, replacement.charge),
                        OnServiceCorrected(b.earnings, b1.records, i, |b.records|), 2);
  }

  lemma {:induction false} EndingKeepsCycles(b: Books, i: nat)
    requires i < |b.records|
    ensures CyclesStand(b.cycles, EndRecord(b, i).books.cycles)
  {
    var b1 := WithoutRecord(b, i);
    SettlingKeepsCycles(b, b1, AdjustmentPosting(b.records[i], i, 0), OnServiceVoided(b.earnings, b1.records, i), 1);
  }

  lemma {:induction false} ServiceKeepsCycles(b: Books, cmd: Command)
    requires cmd.RecordServiceCmd? || cmd.CorrectServiceCmd? || cmd.VoidServiceCmd?
    ensures CyclesStand(b.cycles, Apply(b, cmd).books.cycles)
  {
    match cmd
    case RecordServiceCmd(c, kind, quantity, date) =>
      if c < |b.customers| && ResolveCharge(kind, quantity, b.customers[c].unitPrice).Some? {
        var (milli, charge) := ResolveCharge(kind, quantity, b.customers[c].unitPrice).value;
        var on := if date.Some? then date.value else b.today;
        InsertingKeepsCycles(b, Record(c, on, milli, b.customers[c].unitPrice, charge, kind, Active, None, None, None,
                                       b.nextVersion));
      }
    case CorrectServiceCmd(i, kind, quantity, _) =>
      if i < |b.records| && ResolveCharge(kind, quantity, b.records[i].unitPrice).Some? {
        var (milli, charge) := ResolveCharge(kind, quantity, b.records[i].unitPrice).value;
        ReplacingKeepsCycles(b, i, Replacement(b, i, kind, milli, charge));
      }
    case VoidServiceCmd(i, _) =>
      if i < |b.records| {
        EndingKeepsCycles(b, i);
      }
  }

  lemma {:induction false} PaymentKeepsCycles(b: Books, cmd: Command)
    requires cmd.RecordPaymentCmd? || cmd.VoidPaymentCmd?
    ensures CyclesStand(b.cycles, Apply(b, cmd).books.cycles)
  {
    match cmd
    case RecordPaymentCmd(c, amount, date) =>
      var on := if date.Some? then date.value else b.today;
      var payment := Payment(c, amount, on, Recorded, b.nextVersion);
      SettlingKeepsCycles(b, WithPayment(b, payment), PaymentPosting(payment, |b.payments|),
                          OnPaymentRecorded(b.earnings, WithPayment(b, payment).payments, |b.payments|), 1);
    case VoidPaymentCmd(p, _) =>
      if p < |b.payments| {
        SettlingKeepsCycles(b, WithReversal(b, p), ReversalPosting(b.payments[p], p),
                            OnPaymentVoided(b.earnings, WithReversal(b, p).payments, p), 1);
      }
  }

  lemma {:induction false} CommandKeepsCycles(b: Books, cmd: Command)
    ensures CyclesStand(b.cycles, Apply(b, cmd).books.cycles)
  {
    if cmd.RecordServiceCmd? || cmd.CorrectServiceCmd? || cmd.VoidServiceCmd? {
      ServiceKeepsCycles(b, cmd);
    } else if cmd.RecordPaymentCmd? || cmd.VoidPaymentCmd? {
      PaymentKeepsCycles(b, cmd);
    } else if cmd.CloseCycleCmd? {
      ClosingKeepsPayments(b, cmd.cycle);
    }
  }

  lemma {:induction false} CommandKeepsDocuments(b: Books, cmd: Command)
    ensures DocumentsStand(b, Apply(b, cmd).books)
  {
    ApplyStep(b, cmd);
    StepKeepsRecords(b, Apply(b, cmd).books.records);
    CommandKeepsPayments(b, cmd);
    CommandKeepsCycles(b, cmd);
  }

  // ---- what an operation did ---------------------------------------------------

  /** The document in the tables is the operation's own, as it was answered with or as it has
      ended since. */
  ghost predicate IsOutcomeOf(b: Books, cmd: Command, entity: Entity) {
    match cmd
    case RecordServiceCmd(customer, kind, _, date) =>
      entity.RecordEntity? && entity.id < |b.records| && RecordStands(entity.record, b.records[entity.id])
      && entity.record.customer == customer && entity.record.kind == kind
      && (date.Some? ==> entity.record.date == date.value)
    case CorrectServiceCmd(i, kind, _, _) =>
      entity.RecordEntity? && entity.id < |b.records| && RecordStands(entity.record, b.records[entity.id])
      && entity.record.corrects == Some(i) && entity.record.kind == kind
    case VoidServiceCmd(i, _) =>
      entity.RecordEntity? && entity.id == i && i < |b.records| && b.records[i] == entity.record
      && entity.record.status == Voided
    case RecordPaymentCmd(customer, amount, date) =>
      entity.PaymentEntity? && entity.id < |b.payments| && PaymentStands(entity.payment, b.payments[entity.id])
      && entity.payment.customer == customer && entity.payment.amount == amount
      && (date.Some? ==> entity.payment.receivedOn == date.value)
    case VoidPaymentCmd(p, _) =>
      entity.PaymentEntity? && entity.id == p && p < |b.payments| && b.payments[p] == entity.payment
      && entity.payment.status == Reversed
    case CloseCycleCmd(k) =>
      entity.CycleEntity? && entity.id == k && k < |b.cycles| && b.cycles[k] == entity.cycle && !entity.cycle.open
    case CreatePlanCmd(plan) => entity == PlanEntity(plan)
    case SetCustomer(c, row) =>
      entity.CustomerEntity? && entity.id == c && entity.customer == row.(version := entity.customer.version)
    case _ => false
  }

  /** The one thing that an operation does to a document of the books. A plan and an edit of
      a customer leave nothing that a later one could not leave again. */
  datatype Deed =
    | NewRecord(id: nat) | EndedRecord(id: nat) | NewPayment(id: nat) | EndedPayment(id: nat) | ClosedCycle(id: nat)
    | NoDocument

  function DeedOf(cmd: Command, entity: Entity): Deed {
    match entity
    case RecordEntity(i, _) => if cmd.VoidServiceCmd? then EndedRecord(i) else NewRecord(i)
    case PaymentEntity(p, _) => if cmd.VoidPaymentCmd? then EndedPayment(p) else NewPayment(p)
    case CycleEntity(k, _) => ClosedCycle(k)
    case _ => NoDocument
  }

  predicate IsDone(b: Books, deed: Deed) {
    match deed
    case NewRecord(i) => i < |b.records|
    case EndedRecord(i) => i < |b.records| && b.records[i].status == Voided
    case NewPayment(p) => p < |b.payments|
    case EndedPayment(p) => p < |b.payments| && b.payments[p].status == Reversed
    case ClosedCycle(k) => k < |b.cycles| && !b.cycles[k].open
    case NoDocument => true
  }

  lemma {:induction false} OutcomesStand(b: Books, x: Books, cmd: Command, entity: Entity)
    requires DocumentsStand(b, x) && IsOutcomeOf(b, cmd, entity)
    ensures IsOutcomeOf(x, cmd, entity)
  {
    match entity
    case RecordEntity(i, _) => assert RecordStands(b.records[i], x.records[i]);
    case PaymentEntity(p, _) => assert PaymentStands(b.payments[p], x.payments[p]);
    case CycleEntity(k, _) => assert CycleStands(b.cycles[k], x.cycles[k]);
    case _ =>
  }

  lemma {:induction false} OutcomesAreDone(b: Books, cmd: Command, entity: Entity)
    requires IsOutcomeOf(b, cmd, entity)
    ensures IsDone(b, DeedOf(cmd, entity))
  {
  }

  /** The document as the tables have it now. */
  ghost predicate IsDocumentOf(b: Books, entity: Entity) {
    match entity
    case RecordEntity(i, record) => i < |b.records| && b.records[i] == record
    case PaymentEntity(p, payment) => p < |b.payments| && b.payments[p] == payment
    case CycleEntity(k, cycle) => k < |b.cycles| && b.cycles[k] == cycle
    case PlanEntity(plan) => b.earnings.plans != [] && b.earnings.plans[|b.earnings.plans| - 1] == plan
    case CustomerEntity(c, customer) => c < |b.customers| && b.customers[c] == customer
  }

  /** What an accepted command did it had not been done, and is now; it is answered with the
      document as it then stands. */
  ghost predicate DidAfresh(b: Books, cmd: Command, x: Books, entity: Entity) {
    IsOutcomeOf(x, cmd, entity) && IsDocumentOf(x, entity)
    && (DeedOf(cmd, entity) == NoDocument || !IsDone(b, DeedOf(cmd, entity)))
  }

  lemma {:induction false} RecordingDoes(b: Books, cmd: Command)
    requires cmd.RecordServiceCmd? && Apply(b, cmd).error.None?
    ensures var x := Apply(b, cmd).books;
            EntityOf(b, cmd, x).Some? && DidAfresh(b, cmd, x, EntityOf(b, cmd, x).value)
            && |x.records| == |b.records| + 1
  {
  }

  lemma {:induction false} CorrectingDoes(b: Books, cmd: Command)
    requires cmd.CorrectServiceCmd? && Apply(b, cmd).error.None?
    ensures var x := Apply(b, cmd).books;
            EntityOf(b, cmd, x).Some? && DidAfresh(b, cmd, x, EntityOf(b, cmd, x).value)
            && |x.records| == |b.records| + 1
  {
  }

  lemma {:induction false} VoidingDoes(b: Books, cmd: Command)
    requires cmd.VoidServiceCmd? && Apply(b, cmd).error.None?
    ensures var x := Apply(b, cmd).books;
            EntityOf(b, cmd, x).Some? && DidAfresh(b, cmd, x, EntityOf(b, cmd, x).value)
            && |x.records| == |b.records|
  {
  }

  lemma {:induction false} PayingDoes(b: Books, cmd: Command)
    requires cmd.RecordPaymentCmd? && Apply(b, cmd).error.None?
    ensures var x := Apply(b, cmd).books;
            EntityOf(b, cmd, x).Some? && DidAfresh(b, cmd, x, EntityOf(b, cmd, x).value) && x.records == b.records
  {
  }

  lemma {:induction false} ReversingDoes(b: Books, cmd: Command)
    requires cmd.VoidPaymentCmd? && Apply(b, cmd).error.None?
    ensures var x := Apply(b, cmd).books;
            EntityOf(b, cmd, x).Some? && DidAfresh(b, cmd, x, EntityOf(b, cmd, x).value) && x.records == b.records
  {
  }

  lemma {:induction false} ClosingDoes(b: Books, k: nat)
    requires CloseCycle(b, k).error.None?
    ensures var cmd, x := CloseCycleCmd(k), CloseCycle(b, k).books;
            EntityOf(b, cmd, x).Some? && DidAfresh(b, cmd, x, EntityOf(b, cmd, x).value) && x.records == b.records
  {
  }

  /** Every accepted operation does its one thing, for the first time. */
  lemma {:induction false} AcceptedDoes(b: Books, intent: Intent)
    requires Apply(b, CommandOf(intent)).error.None?
    ensures var cmd := CommandOf(intent);
            var x := Apply(b, cmd).books;
            EntityOf(b, cmd, x).Some? && DidAfresh(b, cmd, x, EntityOf(b, cmd, x).value)
            && |x.records| == |b.records| + One(CreatesRecord(cmd))
  {
    var cmd := CommandOf(intent);
    match cmd
    case RecordServiceCmd(_, _, _, _) => RecordingDoes(b, cmd);
    case CorrectServiceCmd(_, _, _, _) => CorrectingDoes(b, cmd);
    case VoidServiceCmd(_, _) => VoidingDoes(b, cmd);
    case RecordPaymentCmd(_, _, _) => PayingDoes(b, cmd);
    case VoidPaymentCmd(_, _) => ReversingDoes(b, cmd);
    case CloseCycleCmd(k) => ClosingDoes(b, k);
    case _ =>
  }

  predicate CreatesRecord(cmd: Command) {
    cmd.RecordServiceCmd? || cmd.CorrectServiceCmd?
  }

  function One(b: bool): nat {
    if b then 1 else 0
  }

  // ---- the register cites real documents ---------------------------------------

  /** The id's document is in the tables as its request asked for it. */
  ghost predicate HoldsOutcome(b: Books, row: Row) {
    row.result.Some? && IsOutcomeOf(b, CommandOf(row.request.payload), row.result.value)
  }

  function RowDeed(row: Row): Deed
    requires row.result.Some?
  {
    DeedOf(CommandOf(row.request.payload), row.result.value)
  }

  /** Every bound id has its document, and no two ids did the same thing. */
  ghost predicate RegisterOk(d: Backend) {
    (forall id :: id in d.register ==> HoldsOutcome(d.books, d.register[id]))
    && (forall id, other :: id in d.register && other in d.register && id != other ==>
          RowDeed(d.register[id]) == NoDocument || RowDeed(d.register[id]) != RowDeed(d.register[other]))
  }

  lemma {:induction false} StillOk(d: Backend, b: Books)
    requires RegisterOk(d) && DocumentsStand(d.books, b)
    ensures RegisterOk(d.(books := b))
  {
    forall id | id in d.register ensures HoldsOutcome(b, d.register[id]) {
      OutcomesStand(d.books, b, CommandOf(d.register[id].request.payload), d.register[id].result.value);
    }
  }

  lemma {:induction false} BindingKeepsOk(d: Backend, id: nat, row: Row)
    requires RegisterOk(d) && HoldsOutcome(d.books, row)
    requires forall other :: other in d.register ==>
               RowDeed(row) == NoDocument || RowDeed(d.register[other]) != RowDeed(row)
    ensures RegisterOk(d.(register := d.register[id := row]))
  {
  }

  /** What had not been done is no bound id's. */
  lemma {:induction false} NotDoneIsNobodys(d: Backend, deed: Deed)
    requires RegisterOk(d) && !IsDone(d.books, deed)
    ensures forall other :: other in d.register ==> RowDeed(d.register[other]) != deed
  {
    forall other | other in d.register ensures RowDeed(d.register[other]) != deed {
      OutcomesAreDone(d.books, CommandOf(d.register[other].request.payload), d.register[other].result.value);
    }
  }

  lemma {:induction false} AcceptedKeepsOk(d: Backend, m: Message, x: Books, row: Row)
    requires RegisterOk(d) && m.opId !in d.register
    requires Apply(d.books, CommandOf(m.request.payload)) == Outcome(x, None)
    requires row == Registered(m.request, EntityOf(d.books, CommandOf(m.request.payload), x))
    ensures RegisterOk(Backend(x, d.register[m.opId := row]))
  {
    AcceptedDoes(d.books, m.request.payload);
    CommandKeepsDocuments(d.books, CommandOf(m.request.payload));
    StillOk(d, x);
    if RowDeed(row) != NoDocument {
      NotDoneIsNobodys(d, RowDeed(row));
    }
    BindingKeepsOk(d.(books := x), m.opId, row);
  }

  lemma {:induction false} DeliveryKeepsOk(d: Backend, m: Message)
    requires RegisterOk(d)
    ensures RegisterOk(Execute(d, m).0)
  {
    if m.opId !in d.register {
      var outcome := Apply(d.books, CommandOf(m.request.payload));
      if outcome.error.None? {
        AcceptedKeepsOk(d, m, outcome.books,
                        Registered(m.request, EntityOf(d.books, CommandOf(m.request.payload), outcome.books)));
      } else {
        CommandKeepsDocuments(d.books, CommandOf(m.request.payload));
        StillOk(d, outcome.books);
      }
    }
  }

  lemma {:induction false} StepKeepsOk(d: Backend, x: Input)
    requires RegisterOk(d)
    ensures RegisterOk(Step(d, x).0)
  {
    match x
    case Deliver(m) => DeliveryKeepsOk(d, m);
    case Other(cmd) =>
      CommandKeepsDocuments(d.books, cmd);
      StillOk(d, Apply(d.books, cmd).books);
  }

  lemma {:induction false} ProcessKeepsOk(d: Backend, xs: seq<Input>)
    requires RegisterOk(d)
    ensures RegisterOk(Process(d, xs).0)
  {
    if xs != [] {
      ProcessKeepsOk(d, xs[..|xs| - 1]);
      StepKeepsOk(Process(d, xs[..|xs| - 1]).0, xs[|xs| - 1]);
    }
  }

  // ---- one effect per id -------------------------------------------------------

  predicate ChangesTables(b: Books, x: Books) {
    x != b.(nextVersion := x.nextVersion)
  }

  /** How many deliveries of one id changed the tables. */
  function EffectsOf(d: Backend, xs: seq<Input>, id: nat): nat {
    if xs == [] then 0
    else
      var rest, x := xs[..|xs| - 1], xs[|xs| - 1];
      EffectsOf(d, rest, id)
      + One(x.Deliver? && x.message.opId == id && ChangesTables(Process(d, rest).0.books, Process(d, xs).0.books))
  }

  /** By how many records the deliveries of one id made the table grow. */
  function CreatedBy(d: Backend, xs: seq<Input>, id: nat): int {
    if xs == [] then 0
    else
      var rest, x := xs[..|xs| - 1], xs[|xs| - 1];
      CreatedBy(d, rest, id)
      + if x.Deliver? && x.message.opId == id
        then |Process(d, xs).0.books.records| - |Process(d, rest).0.books.records| else 0
  }

  /** The id is bound, to a request that creates a record. */
  predicate BoundToRecord(d: Backend, id: nat) {
    id in d.register && CreatesRecord(CommandOf(d.register[id].request.payload))
  }

  lemma {:induction false} AcceptedChanges(b: Books, intent: Intent)
    requires VersionsOk(b) && Apply(b, CommandOf(intent)).error.None?
    ensures ChangesTables(b, Apply(b, CommandOf(intent)).books)
  {
    var cmd := CommandOf(intent);
    var x := Apply(b, cmd).books;
    if cmd.SetCustomer? {
      EditIsAChange(b, cmd.customer, cmd.row);
    } else if cmd.CreatePlanCmd? {
      PlanIsAChange(b, cmd.plan);
    } else {
      AcceptedDoes(b, intent);
      var deed := DeedOf(cmd, EntityOf(b, cmd, x).value);
      OutcomesAreDone(x, cmd, EntityOf(b, cmd, x).value);
      DoneIsAChange(b, x, deed);
    }
  }

  /** Even an edit that changes nothing else draws the row's version. */
  lemma {:induction false} EditIsAChange(b: Books, customer: nat, row: Customer)
    requires VersionsOk(b) && PutCustomer(b, customer, row).error.None?
    ensures ChangesTables(b, PutCustomer(b, customer, row).books)
  {
    var x := PutCustomer(b, customer, row).books;
    assert x.customers[customer].version == b.nextVersion;
  }

  lemma {:induction false} DoneIsAChange(b: Books, x: Books, deed: Deed)
    requires !IsDone(b, deed) && IsDone(x, deed)
    ensures ChangesTables(b, x)
  {
  }

  lemma {:induction false} PlanIsAChange(b: Books, plan: Plan)
    requires CreatePlan(b, plan).error.None?
    ensures ChangesTables(b, CreatePlan(b, plan).books)
  {
    var plans := Create(b.earnings.plans, plan).value;
    assert |plans| == |b.earnings.plans| + 1;
  }

  /** A delivery changes the tables when it binds its id, and never otherwise. */
  lemma {:induction false} DeliveryChanges(d: Backend, m: Message)
    requires VersionsOk(d.books)
    ensures var d' := Execute(d, m).0;
            One(ChangesTables(d.books, d'.books)) == One(m.opId in d'.register) - One(m.opId in d.register)
  {
    if m.opId !in d.register {
      if Apply(d.books, CommandOf(m.request.payload)).error.None? {
        AcceptedChanges(d.books, m.request.payload);
      } else {
        RefusedKeepsTables(d.books, CommandOf(m.request.payload));
      }
    }
  }

  /** It adds a record when it binds its id to a request for one. */
  lemma {:induction false} DeliveryCreates(d: Backend, m: Message)
    ensures var d' := Execute(d, m).0;
            |d'.books.records| - |d.books.records| == One(BoundToRecord(d', m.opId)) - One(BoundToRecord(d, m.opId))
  {
    if m.opId !in d.register {
      if Apply(d.books, CommandOf(m.request.payload)).error.None? {
        AcceptedDoes(d.books, m.request.payload);
      } else {
        RefusedKeepsTables(d.books, CommandOf(m.request.payload));
      }
    }
  }

  lemma {:induction false} StepBindsOnlyItsId(d: Backend, x: Input, id: nat)
    requires !(x.Deliver? && x.message.opId == id)
    ensures id in Step(d, x).0.register <==> id in d.register
    ensures BoundToRecord(Step(d, x).0, id) <==> BoundToRecord(d, id)
  {
  }

  /** Over every run, whatever else happens to the books: all deliveries of one id together
      change the tables once if the id ends up bound, and never if it does not; and a bound
      id's document stays in the tables as its request asked for it, none of it another id's
      doing. */
  lemma {:induction false} OneEffectPerId(d: Backend, xs: seq<Input>, id: nat)
    requires RegisterOk(d) && Inv(d.books)
    ensures var d' := Process(d, xs).0;
            EffectsOf(d, xs, id) == One(id in d'.register) - One(id in d.register)
            && (id in d'.register ==> HoldsOutcome(d'.books, d'.register[id]))
            && RegisterOk(d')
  {
    ProcessKeepsOk(d, xs);
    EffectsByBinding(d, xs, id);
  }

  lemma {:induction false} EffectsByBinding(d: Backend, xs: seq<Input>, id: nat)
    requires Inv(d.books)
    ensures EffectsOf(d, xs, id) == One(id in Process(d, xs).0.register) - One(id in d.register)
  {
    if xs != [] {
      var rest, x := xs[..|xs| - 1], xs[|xs| - 1];
      EffectsByBinding(d, rest, id);
      if x.Deliver? && x.message.opId == id {
        ProcessKeepsInv(d, rest);
        DeliveryChanges(Process(d, rest).0, x.message);
      } else {
        StepBindsOnlyItsId(Process(d, rest).0, x, id);
      }
    }
  }

  /** In particular they add one record if the id is bound to a recording or a correction,
      and none otherwise. */
  lemma {:induction false} OneRecordPerId(d: Backend, xs: seq<Input>, id: nat)
    ensures CreatedBy(d, xs, id) == One(BoundToRecord(Process(d, xs).0, id)) - One(BoundToRecord(d, id))
  {
    if xs != [] {
      var rest, x := xs[..|xs| - 1], xs[|xs| - 1];
      OneRecordPerId(d, rest, id);
      if x.Deliver? && x.message.opId == id {
        DeliveryCreates(Process(d, rest).0, x.message);
      } else {
        StepBindsOnlyItsId(Process(d, rest).0, x, id);
      }
    }
  }

  // ---- exactly when a delivery takes effect ------------------------------------

  lemma {:induction false} ProcessKeepsInv(d: Backend, xs: seq<Input>)
    requires Inv(d.books)
    ensures Inv(Process(d, xs).0.books)
  {
    if xs != [] {
      ProcessKeepsInv(d, xs[..|xs| - 1]);
      StepKeepsInv(Process(d, xs[..|xs| - 1]).0, xs[|xs| - 1]);
    }
  }

  lemma {:induction false} StepKeepsInv(d: Backend, x: Input)
    requires Inv(d.books)
    ensures Inv(Step(d, x).0.books)
  {
    ApplyKeeps(d.books, if x.Deliver? then CommandOf(x.message.request.payload) else x.cmd);
  }

  /** The books would accept the command now. */
  ghost predicate Acceptable(b: Books, cmd: Command) {
    match cmd
    case RecordServiceCmd(c, kind, quantity, date) =>
      Recordable(b, c, kind, quantity, if date.Some? then date.value else b.today)
    case CorrectServiceCmd(i, kind, quantity, blank) => !blank && Correctable(b, i, kind, quantity)
    case VoidServiceCmd(i, blank) =>
      !blank && i < |b.records| && b.records[i].status == Active && (b.records[i].charge == 0 || CanPost(b))
    case RecordPaymentCmd(c, amount, date) =>
      c < |b.customers| && 0 < amount && CanPost(b)
      && (if date.Some? then date.value else b.today).Key() <= b.today.Key()
    case VoidPaymentCmd(p, blank) => !blank && p < |b.payments| && b.payments[p].status == Recorded && CanPost(b)
    case CloseCycleCmd(k) => Closable(b, k)
    case CreatePlanCmd(plan) =>
      ValidTerms(plan.terms) && plan.ReachesTo(plan.from) && Admits(b.earnings.plans, plan.from)
    case SetCustomer(c, _) => c <= |b.customers|
    case _ => true
  }

  lemma {:induction false} AcceptedExactly(b: Books, cmd: Command)
    requires Inv(b)
    ensures Apply(b, cmd).error.None? <==> Acceptable(b, cmd)
  {
    if cmd.RecordServiceCmd? || cmd.CorrectServiceCmd? || cmd.VoidServiceCmd? {
      ServiceCommandAcceptedExactly(b, cmd);
    } else if cmd.RecordPaymentCmd? || cmd.VoidPaymentCmd? {
      PaymentCommandAcceptedExactly(b, cmd);
    } else {
      OtherCommandAcceptedExactly(b, cmd);
    }
  }

  lemma {:induction false} PaymentCommandAcceptedExactly(b: Books, cmd: Command)
    requires Inv(b) && (cmd.RecordPaymentCmd? || cmd.VoidPaymentCmd?)
    ensures Apply(b, cmd).error.None? <==> Acceptable(b, cmd)
  {
    match cmd
    case RecordPaymentCmd(c, amount, date) => PaymentAcceptedExactly(b, c, amount, date);
    case VoidPaymentCmd(p, blank) => ReversalAcceptedExactly(b, p, blank);
  }

  lemma {:induction false} OtherCommandAcceptedExactly(b: Books, cmd: Command)
    requires Inv(b) && !IsPosting(cmd)
    ensures Apply(b, cmd).error.None? <==> Acceptable(b, cmd)
  {
    match cmd
    case CloseCycleCmd(k) => CloseAcceptedExactly(b, k);
    case CreatePlanCmd(plan) => PlanAcceptedExactly(b, plan);
    case SetCustomer(c, row) => EditAcceptedExactly(b, c, row);
    case _ =>
  }

  lemma EditAcceptedExactly(b: Books, customer: nat, row: Customer)
    ensures PutCustomer(b, customer, row).error.None? <==> customer <= |b.customers|
  {
  }

  lemma {:induction false} ServiceCommandAcceptedExactly(b: Books, cmd: Command)
    requires Inv(b) && (cmd.RecordServiceCmd? || cmd.CorrectServiceCmd? || cmd.VoidServiceCmd?)
    ensures Apply(b, cmd).error.None? <==> Acceptable(b, cmd)
  {
    match cmd
    case RecordServiceCmd(c, kind, quantity, date) => ServiceAcceptedExactly(b, c, kind, quantity, date);
    case CorrectServiceCmd(i, kind, quantity, blank) => CorrectionAcceptedExactly(b, i, kind, quantity, blank);
    case VoidServiceCmd(i, blank) => VoidAcceptedExactly(b, i, blank);
  }

  lemma {:induction false} PlanAcceptedExactly(b: Books, plan: Plan)
    requires Inv(b)
    ensures CreatePlan(b, plan).error.None?
            <==> ValidTerms(plan.terms) && plan.ReachesTo(plan.from) && Admits(b.earnings.plans, plan.from)
  {
    CreateKeepsOrder(b.earnings.plans, plan);
  }

  /** A delivery takes effect exactly when its id is still unbound and the books would accept
      its command by then: however late it comes, and whatever an earlier attempt was told. */
  lemma {:induction false} AppliedExactly(d: Backend, xs: seq<Input>, j: nat, m: Message)
    requires Inv(d.books) && j < |xs| && xs[j] == Deliver(m)
    ensures var before := Process(d, xs[..j]).0;
            IsApplied(Process(d, xs).1[j])
            <==> m.opId !in before.register && Acceptable(before.books, CommandOf(m.request.payload))
  {
    ProcessKeepsInv(d, xs[..j]);
    AnswerOfPrefix(Step, d, xs, j);
    ExecutedExactly(Process(d, xs[..j]).0, m);
  }

  lemma {:induction false} ExecutedExactly(d: Backend, m: Message)
    requires Inv(d.books)
    ensures Execute(d, m).1.Applied?
            <==> m.opId !in d.register && Acceptable(d.books, CommandOf(m.request.payload))
  {
    AcceptedExactly(d.books, CommandOf(m.request.payload));
  }

  // ---- refused, then applied ---------------------------------------------------

  /** A recording refused because the day was taken. */
  ghost predicate RefusedAsTaken(d: Backend, m: Message, p: Payload, occupant: nat) {
    m.request.payload == Recording(p)
    && m.opId !in d.register && Execute(d, m).1 == Failed(AlreadyRecorded)
    && occupant < |d.books.records| && d.books.records[occupant].status == Active
    && d.books.records[occupant].customer == p.customer
    && d.books.records[occupant].date == if p.date.Some? then p.date.value else d.books.today
  }

  /** The record that holds the day is voided. */
  function Freed(d: Backend, m: Message, occupant: nat): Backend {
    Step(Execute(d, m).0, Other(VoidServiceCmd(occupant, false))).0
  }

  /** So an id that was refused can take effect after all: when the retry of an envelope was
      refused because the day was taken, and the record that took it is then voided, a copy of
      the same message that was still on its way is APPLIED, unless the rollover is due and
      there is something to post. The client has let the envelope go by then. */
  lemma {:induction false} RefusedThenApplied(d: Backend, m: Message, p: Payload, occupant: nat)
    requires Inv(d.books) && RefusedAsTaken(d, m, p, occupant)
    requires Apply(Execute(d, m).0.books, VoidServiceCmd(occupant, false)).error.None?
    ensures var freed := Freed(d, m, occupant);
            m.opId !in freed.register
            && (Execute(freed, m).1.Applied? <==>
                  ResolveCharge(p.kind, p.quantity, d.books.customers[p.customer].unitPrice).value.1 == 0
                  || CanPost(freed.books))
  {
    var refused := Execute(d, m).0;
    RefusedServiceKeepsTables(d.books, RecordingOf(p));
    TakenDayIsOtherwiseFine(d.books, p);
    ApplyKeeps(d.books, RecordingOf(p));
    ApplyKeeps(refused.books, VoidServiceCmd(occupant, false));
    VoidFreesTheDay(refused.books, occupant);
    var freed := Freed(d, m, occupant);
    ServiceAcceptedExactly(freed.books, p.customer, p.kind, p.quantity, p.date);
  }

  lemma {:induction false} TakenDayIsOtherwiseFine(b: Books, p: Payload)
    requires Apply(b, RecordingOf(p)).error == Some(AlreadyRecorded)
    ensures p.customer < |b.customers| && b.customers[p.customer].active
    ensures (if p.date.Some? then p.date.value else b.today).Key() <= b.today.Key()
    ensures ResolveCharge(p.kind, p.quantity, b.customers[p.customer].unitPrice).Some?
  {
  }

  lemma {:induction false} VoidFreesTheDay(b: Books, i: nat)
    requires RecordsOk(b.today, b.records) && i < |b.records| && Apply(b, VoidServiceCmd(i, false)).error.None?
    ensures var x := Apply(b, VoidServiceCmd(i, false)).books;
            !SlotTaken(x.records, b.records[i].customer, b.records[i].date)
            && x.customers == b.customers && x.today == b.today
  {
    var x := Apply(b, VoidServiceCmd(i, false)).books;
    assert b.records[i].status == Active;
    SettleKeepsDocuments(b, WithoutRecord(b, i), AdjustmentPosting(b.records[i], i, 0),
                         OnServiceVoided(b.earnings, WithoutRecord(b, i).records, i), 1);
    assert x.records == VoidRecord(b.records, i, b.nextVersion);
  }

  /** A skipped day of customer 0, today. */
  function Skip0(): Payload {
    Payload(0, Skip, None, None, Button)
  }

  function SkipMessage(opId: nat): Message {
    Message(opId, Request(OpFor(Recording(Skip0())), Recording(Skip0())))
  }

  /** Customer 0 is there and active, and nothing has been recorded yet. */
  ghost predicate ReadyToSkip(d: Backend) {
    Inv(d.books) && d.books.records == [] && d.register == map[]
    && 0 < |d.books.customers| && d.books.customers[0].active
  }

  /** Today's skip of customer 0 is recorded, as record 0. */
  ghost predicate Skipped(d: Backend) {
    Inv(d.books) && 0 < |d.books.customers| && d.books.customers[0].active && |d.books.records| == 1
    && d.books.records[0].status == Active && d.books.records[0].customer == 0
    && d.books.records[0].date == d.books.today && d.books.records[0].charge == 0
  }

  lemma {:induction false} FirstSkipApplies(d: Backend, m: Message)
    requires ReadyToSkip(d) && m == SkipMessage(m.opId)
    ensures var x := Execute(d, m); x.1.Applied? && Skipped(x.0) && x.0.register.Keys == {m.opId}
  {
    assert !SlotTaken(d.books.records, 0, d.books.today);
    ServiceAcceptedExactly(d.books, 0, Skip, None, None);
    ApplyKeeps(d.books, RecordingOf(Skip0()));
    RecordingDoes(d.books, RecordingOf(Skip0()));
    SkipKeepsTheRest(d.books);
  }

  lemma {:induction false} SkipKeepsTheRest(b: Books)
    ensures var x := Apply(b, RecordingOf(Skip0())).books; x.customers == b.customers && x.today == b.today
  {
  }

  lemma {:induction false} SecondSkipIsRefused(d: Backend, m: Message)
    requires Skipped(d) && m.opId !in d.register && m == SkipMessage(m.opId)
    ensures RefusedAsTaken(d, m, Skip0(), 0)
    ensures Execute(d, m).0 == d.(books := d.books.(nextVersion := d.books.nextVersion + 1))
  {
    assert SlotTaken(d.books.records, 0, d.books.today);
  }

  lemma {:induction false} DelayedSkipApplies(d: Backend, m: Message)
    requires Skipped(d) && m.opId !in d.register && m == SkipMessage(m.opId)
    ensures Execute(Freed(d, m, 0), m).1.Applied?
  {
    SecondSkipIsRefused(d, m);
    FreeRecordIsVoidable(d.books, Execute(d, m).0.books);
    RefusedThenApplied(d, m, Skip0(), 0);
  }

  lemma {:induction false} FreeRecordIsVoidable(b: Books, x: Books)
    requires Inv(b) && x == b.(nextVersion := b.nextVersion + 1)
    requires b.records != [] && b.records[0].status == Active && b.records[0].charge == 0
    ensures Apply(x, VoidServiceCmd(0, false)).error.None?
  {
    RefusalKeeps(b, 1);
    VoidAcceptedExactly(x, 0, false);
  }

  /** From nothing: a customer, two envelopes for the same day, the void of the first one's
      record, and the second one's delayed first attempt. */
  function DelayedAttempt(): seq<Input> {
    [Other(SetCustomer(0, Customer(5, true, "", 0))), Deliver(SkipMessage(1)), Deliver(SkipMessage(2)),
     Other(VoidServiceCmd(0, false)), Deliver(SkipMessage(2))]
  }

  lemma {:induction false} FirstCustomer(b: Books, row: Customer, x: Books)
    requires Inv(b) && b.customers == [] && x == PutCustomer(b, 0, row).books
    ensures Inv(x) && x.customers == [row.(version := b.nextVersion)]
    ensures x.records == b.records && x.cycles == b.cycles && x.payments == b.payments
  {
    PutCustomerKeeps(b, 0, row);
  }

  lemma {:induction false} OneCustomer(today: Date, startDay: StartDay, d: Backend)
    requires d == Step(Backend(Initial(today, startDay), map[]), Other(SetCustomer(0, Customer(5, true, "", 0)))).0
    ensures ReadyToSkip(d)
  {
    EmptyBooksHold(Initial(today, startDay));
    FirstCustomer(Initial(today, startDay), Customer(5, true, "", 0), d.books);
  }

  /** Such a run from nothing: the second envelope's retry is refused, and its delayed first
      attempt is APPLIED once the first one's record has been voided. */
  lemma {:induction false} RefusedThenAppliedHappens(today: Date, startDay: StartDay)
    ensures var replies := Process(Backend(Initial(today, startDay), map[]), DelayedAttempt()).1;
            IsApplied(replies[1]) && replies[2] == Some(Failed(AlreadyRecorded)) && IsApplied(replies[4])
  {
    var start, xs := Backend(Initial(today, startDay), map[]), DelayedAttempt();
    FiveSteps(Step, start, xs);
    var ready := Step(start, xs[0]).0;
    OneCustomer(today, startDay, ready);
    FirstSkipApplies(ready, SkipMessage(1));
    var taken := Execute(ready, SkipMessage(1)).0;
    SecondSkipIsRefused(taken, SkipMessage(2));
    DelayedSkipApplies(taken, SkipMessage(2));
  }
}
