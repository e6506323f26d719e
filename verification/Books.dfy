/** One tenant's financial state and the commands that change it. Each command is one
    transaction: it either produces the next state or is refused, and a refusal changes
    nothing but the version numbers it had already drawn. Table positions are ids. */
module Books {
  import opened Outcomes
  import opened Calendar
  import opened Money
  import opened Ranges
  import opened Records
  import opened Payments
  import opened Commission
  import opened Ledger

  type StartDay = d: int | 1 <= d <= 28 witness 1

  /** `details` stands for everything else the row carries: names, telephone numbers and the
      aliases. */
  datatype Customer = Customer(unitPrice: int, active: bool, details: string, version: nat)

  datatype Cycle = Cycle(period: Period, open: bool)

  datatype Statement = Statement(
    customer: nat,
    cycle: nat,
    opening: int,
    charges: int,
    serviceAdjustments: int,
    payments: int,
    paymentReversals: int,
    closing: int,
    version: nat)

  datatype Books = Books(
    today: Date,
    startDay: StartDay,
    nextVersion: nat,
    customers: seq<Customer>,
    records: seq<Record>,
    payments: seq<Payment>,
    ledger: seq<Entry>,
    cycles: seq<Cycle>,
    statements: seq<Statement>,
    earnings: Earnings)

  /** Unique indexes and CHECK constraints, tested where the row is flushed. */
  datatype Constraint = ActiveDay | LedgerKey | CycleStart | StatementKey | StatementChecks

  datatype Error =
    | NotFound | InactiveCustomer | FutureDate | BadQuantity | AlreadyRecorded
    | NotActive | NotRecorded | BlankReason | BadAmount
    | RolloverRequired | NotOpen | PeriodNotEnded
    | BadTerms | PlanRefused(reason: RangeError)
    | Integrity(constraint: Constraint)

  datatype Outcome = Outcome(books: Books, error: Option<Error>)

  function Refuse(b: Books, error: Error, drawn: nat): Outcome {
    Outcome(b.(nextVersion := b.nextVersion + drawn), Some(error))
  }

  // ---- billing cycles ----------------------------------------------------------

  function OpenCycle(cycles: seq<Cycle>): (r: Option<nat>)
    ensures r.Some? ==> r.value < |cycles| && cycles[r.value].open
    ensures r.None? ==> forall i :: 0 <= i < |cycles| ==> !cycles[i].open
  {
    if cycles == [] then None
    else if cycles[|cycles| - 1].open then Some(|cycles| - 1)
    else OpenCycle(cycles[..|cycles| - 1])
  }

  /** The valid open cycle, created when there is none. */
  function EnsureOpenCycle(b: Books): Result<(Books, nat), Error> {
    match OpenCycle(b.cycles)
    case Some(k) =>
      if b.cycles[k].period.end.Key() < b.today.Key() then Err(RolloverRequired) else Ok((b, k))
    case None =>
      var period := PeriodBounds(b.startDay, b.today);
      if exists i :: 0 <= i < |b.cycles| && b.cycles[i].period.start == period.start then Err(Integrity(CycleStart))
      else Ok((b.(cycles := b.cycles + [Cycle(period, true)]), |b.cycles|))
  }

  // ---- posting -----------------------------------------------------------------

  /** What a caller asks the ledger to append. */
  datatype Posting = Posting(customer: nat, kind: EntryKind, amount: int, occurredOn: Date, origin: Origin,
                             sourceId: nat) {
    function AsEntry(cycle: nat, version: nat): Entry {
      Entry(customer, kind, amount, occurredOn, cycle, origin, sourceId, version)
    }
  }

  predicate KeyTaken(es: seq<Entry>, p: Posting) {
    exists i :: 0 <= i < |es| && es[i].origin == p.origin && es[i].sourceId == p.sourceId && es[i].kind == p.kind
  }

  function WithEntry(b: Books, e: Entry): Books {
    b.(ledger := b.ledger + [e], nextVersion := b.nextVersion + 1)
  }

  /** The single append site of the ledger. */
  function PostEntry(b: Books, p: Posting): Result<Books, Error> {
    if p.amount == 0 then Ok(b)
    else
      match EnsureOpenCycle(b)
      case Err(error) => Err(error)
      case Ok((ready, k)) =>
        if KeyTaken(ready.ledger, p) then Err(Integrity(LedgerKey))
        else Ok(WithEntry(ready, p.AsEntry(k, ready.nextVersion)))
  }

  /** The end of a posting command: the posted state with its commission, or the refusal. */
  function Settle(b: Books, posted: Result<Books, Error>, earnings: Earnings, drawn: nat): Outcome {
    match posted
    case Err(error) => Refuse(b, error, drawn)
    case Ok(after) => Outcome(after.(earnings := earnings), None)
  }

  // ---- daily service -----------------------------------------------------------

  function ResolveCharge(kind: Kind, quantity: Option<Decimal>, price: int): Option<(int, int)> {
    if kind == Skip then Some((0, 0))
    else if quantity.None? then None
    else
      match QuantizeQuantity(quantity.value)
      case Err(_) => None
      case Ok(milli) => if IsUnitPrice(price) then Some((milli, ChargeMinor(milli, price))) else None
  }

  predicate SlotTaken(rs: seq<Record>, customer: nat, date: Date) {
    exists i :: 0 <= i < |rs| && rs[i].status == Active && rs[i].customer == customer && rs[i].date == date
  }

  function WithRecord(b: Books, record: Record): Books {
    b.(records := b.records + [record], nextVersion := b.nextVersion + 1)
  }

  /** A SERVICE posts its charge; a SKIP posts nothing. */
  function ChargePosting(record: Record, i: nat): Posting {
    var amount := if record.kind == Service then record.charge else 0;
    Posting(record.customer, ChargeEntry, amount, record.date, FromRecord, i)
  }

  /** Insert an accepted record, post its charge and let it earn. */
  function InsertRecord(b: Books, record: Record): Outcome {
    if SlotTaken(b.records, record.customer, record.date) then Refuse(b, AlreadyRecorded, 1)
    else
      Settle(b, PostEntry(WithRecord(b, record), ChargePosting(record, |b.records|)),
             OnServiceRecorded(b.earnings, WithRecord(b, record).records, |b.records|), 1)
  }

  function RecordService(b: Books, customer: nat, kind: Kind, quantity: Option<Decimal>, date: Option<Date>): Outcome {
    if |b.customers| <= customer then Refuse(b, NotFound, 0)
    else if !b.customers[customer].active then Refuse(b, InactiveCustomer, 0)
    else
      var on := if date.Some? then date.value else b.today;
      if b.today.Key() < on.Key() then Refuse(b, FutureDate, 0)
      else
        var price := b.customers[customer].unitPrice;
        match ResolveCharge(kind, quantity, price)
        case None => Refuse(b, BadQuantity, 0)
        case Some((milli, charge)) =>
          InsertRecord(b, Record(customer, on, milli, price, charge, kind, Active, None, None, None, b.nextVersion))
  }

  function WithReplacement(b: Books, i: nat, replacement: Record): Books
    requires i < |b.records|
  {
    b.(records := Supersede(b.records, i, b.nextVersion, replacement), nextVersion := b.nextVersion + 2)
  }

  /** When a record stops being active, the change in its charge is posted against it. */
  function AdjustmentPosting(ended: Record, i: nat, newCharge: int): Posting {
    Posting(ended.customer, AdjustmentEntry, newCharge - ended.charge, ended.date, FromRecord, i)
  }

  /** Supersede an ACTIVE record, post the difference and move its commission. */
  function ReplaceRecord(b: Books, i: nat, replacement: Record): Outcome
    requires i < |b.records|
  {
    var freed := b.records[i := b.records[i].(status := Superseded)];
    if SlotTaken(freed, replacement.customer, replacement.date) then Refuse(b, Integrity(ActiveDay), 2)
    else
      Settle(b, PostEntry(WithReplacement(b, i, replacement), AdjustmentPosting(b.records[i], i, replacement.charge)),
             OnServiceCorrected(b.earnings, WithReplacement(b, i, replacement).records, i, |b.records|), 2)
  }

  /** The replacement draws its version after the row it supersedes. */
  function Replacement(b: Books, i: nat, kind: Kind, milli: int, charge: int): Record
    requires i < |b.records|
  {
    var original := b.records[i];
    Record(original.customer, original.date, milli, original.unitPrice, charge, kind,
           Active, Some(i), None, Some(charge - original.charge), b.nextVersion + 1)
  }

  function CorrectService(b: Books, i: nat, kind: Kind, quantity: Option<Decimal>, blankReason: bool): Outcome {
    if blankReason then Refuse(b, BlankReason, 0)
    else if |b.records| <= i then Refuse(b, NotFound, 0)
    else if b.records[i].status != Active then Refuse(b, NotActive, 0)
    else
      match ResolveCharge(kind, quantity, b.records[i].unitPrice)
      case None => Refuse(b, BadQuantity, 0)
      case Some((milli, charge)) => ReplaceRecord(b, i, Replacement(b, i, kind, milli, charge))
  }

  function WithoutRecord(b: Books, i: nat): Books
    requires i < |b.records|
  {
    b.(records := VoidRecord(b.records, i, b.nextVersion), nextVersion := b.nextVersion + 1)
  }

  /** End an ACTIVE record: the same rule as a correction to a charge of zero. */
  function EndRecord(b: Books, i: nat): Outcome
    requires i < |b.records|
  {
    Settle(b, PostEntry(WithoutRecord(b, i), AdjustmentPosting(b.records[i], i, 0)),
           OnServiceVoided(b.earnings, WithoutRecord(b, i).records, i), 1)
  }

  function VoidService(b: Books, i: nat, blankReason: bool): Outcome {
    if blankReason then Refuse(b, BlankReason, 0)
    else if |b.records| <= i then Refuse(b, NotFound, 0)
    else if b.records[i].status != Active then Refuse(b, NotActive, 0)
    else EndRecord(b, i)
  }

  // ---- payments ----------------------------------------------------------------

  function WithPayment(b: Books, payment: Payment): Books {
    b.(payments := b.payments + [payment], nextVersion := b.nextVersion + 1)
  }

  /** A payment is negative, because it reduces what is owed. */
  function PaymentPosting(payment: Payment, p: nat): Posting {
    Posting(payment.customer, PaymentEntry, -payment.amount, payment.receivedOn, FromPayment, p)
  }

  function InsertPayment(b: Books, payment: Payment): Outcome {
    Settle(b, PostEntry(WithPayment(b, payment), PaymentPosting(payment, |b.payments|)),
           OnPaymentRecorded(b.earnings, WithPayment(b, payment).payments, |b.payments|), 1)
  }

  function RecordPayment(b: Books, customer: nat, amount: int, receivedOn: Option<Date>): Outcome {
    if |b.customers| <= customer then Refuse(b, NotFound, 0)
    else if amount <= 0 then Refuse(b, BadAmount, 0)
    else
      var on := if receivedOn.Some? then receivedOn.value else b.today;
      if b.today.Key() < on.Key() then Refuse(b, FutureDate, 0)
      else InsertPayment(b, Payment(customer, amount, on, Recorded, b.nextVersion))
  }

  /** The one permitted mutation of a payment. */
  function WithReversal(b: Books, p: nat): Books
    requires p < |b.payments|
  {
    b.(payments := Reverse(b.payments, p, b.nextVersion), nextVersion := b.nextVersion + 1)
  }

  function ReversalPosting(payment: Payment, p: nat): Posting {
    Posting(payment.customer, AdjustmentEntry, payment.amount, payment.receivedOn, FromPayment, p)
  }

  function ReversePayment(b: Books, p: nat): Outcome
    requires p < |b.payments|
  {
    Settle(b, PostEntry(WithReversal(b, p), ReversalPosting(b.payments[p], p)),
           OnPaymentVoided(b.earnings, WithReversal(b, p).payments, p), 1)
  }

  function VoidPayment(b: Books, p: nat, blankReason: bool): Outcome {
    if blankReason then Refuse(b, BlankReason, 0)
    else if |b.payments| <= p then Refuse(b, NotFound, 0)
    else if b.payments[p].status != Recorded then Refuse(b, NotRecorded, 0)
    else ReversePayment(b, p)
  }

  // ---- statements --------------------------------------------------------------

  /** Cycles whose period starts before a date. */
  function CyclesBefore(cycles: seq<Cycle>, start: Date): (r: set<nat>)
    ensures forall i :: i in r <==> 0 <= i < |cycles| && cycles[i].period.start.Key() < start.Key()
  {
    set i: nat | i < |cycles| && cycles[i].period.start.Key() < start.Key()
  }

  function CyclesUpTo(cycles: seq<Cycle>, start: Date): (r: set<nat>)
    ensures forall i :: i in r <==> 0 <= i < |cycles| && cycles[i].period.start.Key() <= start.Key()
  {
    set i: nat | i < |cycles| && cycles[i].period.start.Key() <= start.Key()
  }

  predicate IsEarlierStatement(b: Books, s: Statement, customer: nat, start: Date) {
    s.customer == customer && s.cycle < |b.cycles| && b.cycles[s.cycle].period.start.Key() < start.Key()
  }

  /** The customer's statement with the latest period start before `start`, looking at
      the first `n` statements. */
  function PreviousStatement(b: Books, customer: nat, start: Date, n: nat): (r: Option<nat>)
    requires n <= |b.statements|
    ensures r.Some? ==> r.value < n && IsEarlierStatement(b, b.statements[r.value], customer, start)
    ensures r.Some? ==> forall i :: 0 <= i < n && IsEarlierStatement(b, b.statements[i], customer, start) ==>
                          b.cycles[b.statements[i].cycle].period.start.Key()
                          <= b.cycles[b.statements[r.value].cycle].period.start.Key()
    ensures r.None? ==> forall i :: 0 <= i < n ==> !IsEarlierStatement(b, b.statements[i], customer, start)
  {
    if n == 0 then None
    else
      var before := PreviousStatement(b, customer, start, n - 1);
      var s := b.statements[n - 1];
      if !IsEarlierStatement(b, s, customer, start) then before
      else if before.Some?
              && b.cycles[s.cycle].period.start.Key() < b.cycles[b.statements[before.value].cycle].period.start.Key()
      then before
      else Some(n - 1)
  }

  /** Carry-forward: the previous statement's closing balance, or the ledger sum of all
      earlier cycles when there is none. */
  function OpeningBalance(b: Books, customer: nat, k: nat): int
    requires k < |b.cycles|
  {
    var start := b.cycles[k].period.start;
    match PreviousStatement(b, customer, start, |b.statements|)
    case Some(s) => b.statements[s].closing
    case None => Sum(b.ledger, Some(customer), Some(CyclesBefore(b.cycles, start)), Whole)
  }

  /** Everybody with an entry in these cycles, each once. */
  function BillableCustomers(es: seq<Entry>, cycles: set<nat>): (cs: seq<nat>)
    ensures Distinct(cs)
    ensures forall c :: c in cs <==> exists i :: 0 <= i < |es| && es[i].cycle in cycles && es[i].customer == c
  {
    if es == [] then []
    else
      var last := |es| - 1;
      var before := BillableCustomers(es[..last], cycles);
      assert forall i :: 0 <= i < last ==> es[..last][i] == es[i];
      if es[last].cycle in cycles && es[last].customer !in before then before + [es[last].customer] else before
  }

  function DraftStatement(b: Books, k: nat, customer: nat): Statement
    requires k < |b.cycles|
  {
    var c, ks := Some(customer), Some({k});
    var opening := OpeningBalance(b, customer, k);
    var charges := Sum(b.ledger, c, ks, Charges);
    var serviceAdjustments := Sum(b.ledger, c, ks, ServiceAdjustments);
    var payments := -Sum(b.ledger, c, ks, PaymentsMade);
    var paymentReversals := Sum(b.ledger, c, ks, PaymentReversals);
    Statement(customer, k, opening, charges, serviceAdjustments, payments, paymentReversals,
              opening + charges + serviceAdjustments - payments + paymentReversals, b.nextVersion)
  }

  predicate StatementKeyTaken(ss: seq<Statement>, customer: nat, cycle: nat) {
    exists i :: 0 <= i < |ss| && ss[i].customer == customer && ss[i].cycle == cycle
  }

  function IssueStatement(b: Books, k: nat, customer: nat): Result<Books, Error>
    requires k < |b.cycles|
  {
    var s := DraftStatement(b, k, customer);
    if StatementKeyTaken(b.statements, customer, k) then Err(Integrity(StatementKey))
    else if s.charges < 0 || s.payments < 0 || s.paymentReversals < 0 then Err(Integrity(StatementChecks))
    else Ok(b.(statements := b.statements + [s], nextVersion := b.nextVersion + 1))
  }

  function IssueStatements(b: Books, k: nat, customers: seq<nat>): (r: Result<Books, Error>)
    requires k < |b.cycles|
    ensures r.Ok? ==> r.value == b.(statements := r.value.statements, nextVersion := r.value.nextVersion)
    ensures r.Ok? ==> |r.value.statements| == |b.statements| + |customers|
  {
    if customers == [] then Ok(b)
    else
      match IssueStatements(b, k, customers[..|customers| - 1])
      case Err(error) => Err(error)
      case Ok(issued) => IssueStatement(issued, k, customers[|customers| - 1])
  }

  function Billed(s: Statement): int {
    s.charges + s.serviceAdjustments
  }

  /** Billed-value commission on the statements from position `n` on. */
  function EarnOnStatements(t: Earnings, ss: seq<Statement>, n: nat, periodEnd: Date): Earnings
    requires n <= |ss|
    decreases |ss|
  {
    if |ss| == n then t
    else
      var last := |ss| - 1;
      OnStatementIssued(EarnOnStatements(t, ss[..last], n, periodEnd), last, Billed(ss[last]), periodEnd)
  }

  function WithClosed(b: Books, k: nat): Books
    requires k < |b.cycles|
  {
    b.(cycles := b.cycles[k := b.cycles[k].(open := false)])
  }

  /** Everybody with an entry up to the cycle being closed. */
  function Billable(b: Books, k: nat): (cs: seq<nat>)
    requires k < |b.cycles|
    ensures Distinct(cs)
  {
    BillableCustomers(b.ledger, CyclesUpTo(b.cycles, b.cycles[k].period.start))
  }

  /** Issue the statements of a cycle just closed, and let them earn. */
  function BillCycle(b: Books, k: nat): Result<Books, Error>
    requires k < |b.cycles|
  {
    match IssueStatements(b, k, Billable(b, k))
    case Err(error) => Err(error)
    case Ok(issued) =>
      Ok(issued.(earnings := EarnOnStatements(issued.earnings, issued.statements, |b.statements|,
                                              b.cycles[k].period.end)))
  }

  function CloseCycle(b: Books, k: nat): Outcome {
    if |b.cycles| <= k then Refuse(b, NotFound, 0)
    else if !b.cycles[k].open then Refuse(b, NotOpen, 0)
    else if b.today.Key() <= b.cycles[k].period.end.Key() then Refuse(b, PeriodNotEnded, 0)
    else
      match BillCycle(WithClosed(b, k), k)
      case Err(error) => Refuse(b, error, |Billable(WithClosed(b, k), k)|)
      case Ok(billed) => Outcome(billed, None)
  }

  // ---- everything that can happen ----------------------------------------------

  predicate ValidTerms(terms: Terms) {
    match terms
    case PerEvent(fixed) => 0 <= fixed
    case Rated(_, rate) => IsRate(rate)
  }

  function Advanced(b: Books, today: Date): Books {
    if b.today.Key() <= today.Key() then b.(today := today) else b
  }

  function CreatePlan(b: Books, plan: Plan): Outcome {
    if !ValidTerms(plan.terms) then Refuse(b, BadTerms, 0)
    else
      match Create(b.earnings.plans, plan)
      case Err(reason) => Refuse(b, PlanRefused(reason), 0)
      case Ok(plans) => Outcome(b.(earnings := b.earnings.(plans := plans)), None)
  }

  /** Write a customer's row: the next id is a new customer. The version is drawn here. */
  function PutCustomer(b: Books, customer: nat, row: Customer): Outcome {
    if |b.customers| < customer then Refuse(b, NotFound, 0)
    else
      var put := row.(version := b.nextVersion);
      Outcome(b.(customers := if customer < |b.customers| then b.customers[customer := put] else b.customers + [put],
                 nextVersion := b.nextVersion + 1), None)
  }

  datatype Command =
    | RecordServiceCmd(customer: nat, kind: Kind, quantity: Option<Decimal>, date: Option<Date>)
    | CorrectServiceCmd(record: nat, kind: Kind, quantity: Option<Decimal>, blankReason: bool)
    | VoidServiceCmd(record: nat, blankReason: bool)
    | RecordPaymentCmd(customer: nat, amount: int, date: Option<Date>)
    | VoidPaymentCmd(payment: nat, blankReason: bool)
    | CloseCycleCmd(cycle: nat)
    | CreatePlanCmd(plan: Plan)
    | SetCustomer(customer: nat, row: Customer)  // a new customer, or any edit of one or its aliases
    | AdvanceTo(today: Date)                    // the business date never decreases
    | BurnVersions(count: nat)                   // draws by other tenants and rolled-back work

  function Apply(b: Books, cmd: Command): Outcome {
    match cmd
    case RecordServiceCmd(customer, kind, quantity, date) => RecordService(b, customer, kind, quantity, date)
    case CorrectServiceCmd(record, kind, quantity, blank) => CorrectService(b, record, kind, quantity, blank)
    case VoidServiceCmd(record, blank) => VoidService(b, record, blank)
    case RecordPaymentCmd(customer, amount, date) => RecordPayment(b, customer, amount, date)
    case VoidPaymentCmd(payment, blank) => VoidPayment(b, payment, blank)
    case CloseCycleCmd(cycle) => CloseCycle(b, cycle)
    case CreatePlanCmd(plan) => CreatePlan(b, plan)
    case SetCustomer(customer, row) => PutCustomer(b, customer, row)
    case AdvanceTo(today) => Outcome(Advanced(b, today), None)
    case BurnVersions(count) => Outcome(b.(nextVersion := b.nextVersion + count), None)
  }

  function Initial(today: Date, startDay: StartDay): Books {
    Books(today, startDay, 1, [], [], [], [], [], [], Earnings([], [], []))
  }

  /** The state after a run of commands, refused ones included. */
  function Run(today: Date, startDay: StartDay, commands: seq<Command>): Books {
    if commands == [] then Initial(today, startDay)
    else Apply(Run(today, startDay, commands[..|commands| - 1]), commands[|commands| - 1]).books
  }
}
