/** Operations as clients send them: one message per attempt, over its online route or, for a
    recording, in a sync batch, executed at most once through the register, while anything
    else may happen to the books. */
module Operations {
  import opened Outcomes
  import opened Calendar
  import opened Money
  import opened Payments
  import opened Ranges
  import opened Records
  import opened Commission
  import opened Books
  import opened BooksInvariants
  import opened BooksRuns
  import opened BooksAcceptance
  import opened BooksHistory
  import opened BooksLocking
  import opened BooksTenant
  import opened Registers
  import opened Folds
  import Ops = OpTypes

  datatype InputMethod = Button | Voice

  /** A recording's body before validation; an absent field is `None`. */
  datatype Raw = Raw(
    wellFormed: bool,
    customer: nat,
    kind: Option<Kind>,
    quantity: Option<Decimal>,
    date: Option<Date>,
    input: Option<InputMethod>)

  datatype Payload = Payload(customer: nat, kind: Kind, quantity: Option<Decimal>, date: Option<Date>,
                             input: InputMethod)

  /** Validation fills the defaults in, so an omitted field and its default are one request. */
  function Parse(raw: Raw): Option<Payload> {
    if !raw.wellFormed then None
    else
      Some(Payload(raw.customer, if raw.kind.Some? then raw.kind.value else Service, raw.quantity, raw.date,
                   if raw.input.Some? then raw.input.value else Button))
  }

  function OpTypeForKind(kind: Kind): Ops.OpType {
    if kind == Skip then Ops.ServiceSkip else Ops.ServiceRecord
  }

  predicate IsOperation(cmd: Command) {
    !cmd.RecordServiceCmd? && !cmd.AdvanceTo? && !cmd.BurnVersions?
  }

  /** What clients ask for besides recording a day: corrections, voids, payments, closes,
      plans and edits of customers. */
  type Operation = cmd: Command | IsOperation(cmd) witness VoidServiceCmd(0, true)

  /** What a request is for; `rest` is whatever else its body carries, which the hash covers. */
  datatype Intent = Recording(payload: Payload) | Doing(cmd: Operation, rest: string)

  datatype Body = RecordBody(raw: Raw) | OtherBody(cmd: Operation, rest: string)

  datatype Message = Message(opId: nat, request: Request<Intent>)

  datatype Envelope = Envelope(opId: nat, op: Ops.OpType, payload: Body)

  datatype BadEnvelope = UnsupportedOp | InvalidPayload | OpDoesNotMatchKind

  /** Each route registers under its own operation type. */
  function OpFor(intent: Intent): Ops.OpType {
    match intent
    case Recording(payload) => OpTypeForKind(payload.kind)
    case Doing(cmd, _) => OpOf(cmd).value
  }

  /** A batch carries recordings only. */
  function FromSync(e: Envelope): Result<Message, BadEnvelope> {
    if !Ops.Supported(e.op) then Err(UnsupportedOp)
    else
      match if e.payload.RecordBody? then Parse(e.payload.raw) else None
      case None => Err(InvalidPayload)
      case Some(payload) =>
        if e.op != OpTypeForKind(payload.kind) then Err(OpDoesNotMatchKind)
        else Ok(Message(e.opId, Request(e.op, Recording(payload))))
  }

  function FromOnline(opId: nat, body: Body): Result<Message, BadEnvelope> {
    match body
    case OtherBody(cmd, rest) => Ok(Message(opId, Request(OpFor(Doing(cmd, rest)), Doing(cmd, rest))))
    case RecordBody(raw) =>
      match Parse(raw)
      case None => Err(InvalidPayload)
      case Some(payload) => Ok(Message(opId, Request(OpFor(Recording(payload)), Recording(payload))))
  }

  /** Both transports give one intent the same message, so a retry that changes transport
      is recognised; and an accepted envelope could as well have come online. */
  lemma TransportsAgree(e: Envelope)
    ensures FromSync(e).Ok? ==> FromOnline(e.opId, e.payload) == FromSync(e)
    ensures FromOnline(e.opId, e.payload).Ok? ==>
              var op := FromOnline(e.opId, e.payload).value.request.op;
              (Ops.Supported(op) <==> e.payload.RecordBody?) && (FromSync(e).Ok? <==> Ops.Supported(op) && e.op == op)
  {
  }

  // ---- the register ------------------------------------------------------------

  /** What an operation leaves: the document it created, ended or wrote. */
  datatype Entity =
    | RecordEntity(id: nat, record: Record)
    | PaymentEntity(id: nat, payment: Payment)
    | CycleEntity(id: nat, cycle: Cycle)
    | PlanEntity(plan: Plan)
    | CustomerEntity(id: nat, customer: Customer)

  /** A register row; the result is filled in inside the transaction that claims it. */
  type Row = Registered<Intent, Option<Entity>>

  type Reply = Verdict<Option<Entity>, Error>

  datatype Backend = Backend(books: Books, register: map<nat, Row>)

  function RecordingOf(payload: Payload): Command {
    RecordServiceCmd(payload.customer, payload.kind, payload.quantity, payload.date)
  }

  function CommandOf(intent: Intent): Command {
    match intent
    case Recording(payload) => RecordingOf(payload)
    case Doing(cmd, _) => cmd
  }

  /** The document a command is about, once it has been accepted. */
  function EntityOf(b: Books, cmd: Command, after: Books): Option<Entity> {
    if cmd.RecordServiceCmd? || cmd.CorrectServiceCmd? then
      if |b.records| < |after.records| then Some(RecordEntity(|b.records|, after.records[|b.records|])) else None
    else if cmd.VoidServiceCmd? then
      if cmd.record < |after.records| then Some(RecordEntity(cmd.record, after.records[cmd.record])) else None
    else if cmd.RecordPaymentCmd? then
      if |b.payments| < |after.payments| then Some(PaymentEntity(|b.payments|, after.payments[|b.payments|])) else None
    else if cmd.VoidPaymentCmd? then
      if cmd.payment < |after.payments| then Some(PaymentEntity(cmd.payment, after.payments[cmd.payment])) else None
    else if cmd.CloseCycleCmd? then
      if cmd.cycle < |after.cycles| then Some(CycleEntity(cmd.cycle, after.cycles[cmd.cycle])) else None
    else if cmd.CreatePlanCmd? then Some(PlanEntity(cmd.plan))
    else if cmd.SetCustomer? then
      if cmd.customer < |after.customers| then Some(CustomerEntity(cmd.customer, after.customers[cmd.customer]))
      else None
    else None
  }

  /** What an operation comes to: its document, or why not. */
  function Performed(b: Books, intent: Intent): Result<Option<Entity>, Error> {
    var outcome := Apply(b, CommandOf(intent));
    if outcome.error.Some? then Err(outcome.error.value)
    else Ok(EntityOf(b, CommandOf(intent), outcome.books))
  }

  lemma {:induction false} AcceptedServiceAppends(b: Books, cmd: Command)
    requires (cmd.RecordServiceCmd? || cmd.CorrectServiceCmd?) && Apply(b, cmd).error.None?
    ensures |Apply(b, cmd).books.records| == |b.records| + 1
  {
  }

  lemma {:induction false} AcceptedEndHasItsDocument(b: Books, cmd: Command)
    requires cmd.VoidServiceCmd? || cmd.VoidPaymentCmd? || cmd.RecordPaymentCmd?
    requires Apply(b, cmd).error.None?
    ensures EntityOf(b, cmd, Apply(b, cmd).books).Some?
  {
  }

  lemma {:induction false} AcceptedCloseHasItsCycle(b: Books, k: nat)
    requires CloseCycle(b, k).error.None?
    ensures k < |CloseCycle(b, k).books.cycles|
  {
  }

  /** An accepted operation has a document to answer with. */
  lemma {:induction false} AcceptedHasItsDocument(b: Books, intent: Intent)
    requires Apply(b, CommandOf(intent)).error.None?
    ensures Performed(b, intent).Ok? && Performed(b, intent).value.Some?
  {
    var cmd := CommandOf(intent);
    if cmd.RecordServiceCmd? || cmd.CorrectServiceCmd? {
      AcceptedServiceAppends(b, cmd);
    } else if cmd.VoidServiceCmd? || cmd.VoidPaymentCmd? || cmd.RecordPaymentCmd? {
      AcceptedEndHasItsDocument(b, cmd);
    } else if cmd.CloseCycleCmd? {
      AcceptedCloseHasItsCycle(b, cmd.cycle);
    }
  }

  /** What one message does to the books and the register. */
  function Execute(d: Backend, m: Message): (Backend, Reply) {
    var asked := Ask(d.register, m.opId, m.request, Performed(d.books, m.request.payload));
    var books := if m.opId in d.register then d.books else Apply(d.books, CommandOf(m.request.payload)).books;
    (Backend(books, asked.0), asked.1)
  }

  /** A failure rolls back: nothing changes but the drawn version numbers. */
  lemma {:induction false} FailureChangesNothing(d: Backend, m: Message)
    requires Execute(d, m).1.Failed?
    ensures Execute(d, m).0.register == d.register
    ensures Execute(d, m).0.books == d.books.(nextVersion := Execute(d, m).0.books.nextVersion)
    ensures d.books.nextVersion <= Execute(d, m).0.books.nextVersion
  {
    RefusedKeepsTables(d.books, CommandOf(m.request.payload));
  }

  /** The same tables; versions may have been drawn. */
  ghost predicate SameTables(b: Books, x: Books) {
    x == b.(nextVersion := x.nextVersion) && b.nextVersion <= x.nextVersion
  }

  lemma {:induction false} RefusedServiceKeepsTables(b: Books, cmd: Command)
    requires cmd.RecordServiceCmd? || cmd.CorrectServiceCmd? || cmd.VoidServiceCmd?
    requires Apply(b, cmd).error.Some?
    ensures SameTables(b, Apply(b, cmd).books)
  {
  }

  lemma {:induction false} RefusedPaymentKeepsTables(b: Books, cmd: Command)
    requires cmd.RecordPaymentCmd? || cmd.VoidPaymentCmd?
    requires Apply(b, cmd).error.Some?
    ensures SameTables(b, Apply(b, cmd).books)
  {
  }

  lemma {:induction false} RefusedKeepsTables(b: Books, cmd: Command)
    requires Apply(b, cmd).error.Some?
    ensures SameTables(b, Apply(b, cmd).books)
  {
    if cmd.RecordServiceCmd? || cmd.CorrectServiceCmd? || cmd.VoidServiceCmd? {
      RefusedServiceKeepsTables(b, cmd);
    } else if cmd.RecordPaymentCmd? || cmd.VoidPaymentCmd? {
      RefusedPaymentKeepsTables(b, cmd);
    }
  }

  // ---- runs --------------------------------------------------------------------

  /** A message arrives, or anything else happens to the books: a new day, or whatever was
      asked for by others. */
  datatype Input = Deliver(message: Message) | Other(cmd: Command)

  function Step(d: Backend, x: Input): (Backend, Option<Reply>) {
    match x
    case Deliver(m) => var executed := Execute(d, m); (executed.0, Some(executed.1))
    case Other(cmd) => (d.(books := Apply(d.books, cmd).books), None)
  }

  function Process(d: Backend, xs: seq<Input>): (r: (Backend, seq<Option<Reply>>))
    ensures |r.1| == |xs|
  {
    Fold(Step, d, xs)
  }

  predicate IsApplied(reply: Option<Reply>) {
    reply.Some? && reply.value.Applied?
  }

  /** A message whose id is registered changes nothing at all, so it could be anywhere,
      any number of times: whatever happens around it ends in the same state. */
  lemma {:induction false} ReplaysAreInvisible(d: Backend, before: seq<Input>, m: Message, after: seq<Input>)
    requires m.opId in Process(d, before).0.register
    ensures Process(d, before + [Deliver(m)] + after).0 == Process(d, before + after).0
  {
    IdleInputIsInvisible(Step, d, before, Deliver(m), after);
  }

  predicate Bound(d: Backend, id: nat, row: Row) {
    id in d.register && d.register[id] == row
  }

  lemma {:induction false} StepKeepsBindings(d: Backend, x: Input, id: nat, row: Row)
    ensures Bound(d, id, row) ==> Bound(Step(d, x).0, id, row)
  {
  }

  /** Once bound, an id stays bound to the same request and result. */
  lemma {:induction false} RegisterPersists(d: Backend, xs: seq<Input>, n: nat, id: nat, row: Row)
    requires n <= |xs| && Bound(Process(d, xs[..n]).0, id, row)
    ensures Bound(Process(d, xs).0, id, row)
  {
    forall y, x ensures Bound(y, id, row) ==> Bound(Step(y, x).0, id, row) {
      StepKeepsBindings(y, x, id, row);
    }
    KeptFromPrefix(Step, d, xs, n, y => Bound(y, id, row));
  }

  /** The binding an APPLIED leaves, and what it makes of any later message. */
  lemma {:induction false} AppliedBinds(d: Backend, m: Message)
    requires Execute(d, m).1.Applied?
    ensures Bound(Execute(d, m).0, m.opId, Registered(m.request, Execute(d, m).1.result))
  {
  }

  lemma {:induction false} BoundAnswers(d: Backend, m: Message, row: Row)
    requires Bound(d, m.opId, row)
    ensures Execute(d, m) == (d, if m.request == row.request then Duplicate(row.result) else KeyReuse)
  {
  }

  lemma {:induction false} AppliedStaysBound(
      d: Backend, xs: seq<Input>, i: nat, n: nat, m: Message, reply: Option<Reply>)
    requires i < n <= |xs| && xs[i] == Deliver(m) && reply == Process(d, xs).1[i] && IsApplied(reply)
    ensures Bound(Process(d, xs[..n]).0, m.opId, Registered(m.request, reply.value.result))
  {
    AnswerOfPrefix(Step, d, xs, i);
    AppliedBinds(Process(d, xs[..i]).0, m);
    assert xs[..n][..i + 1] == xs[..i + 1];
    RegisterPersists(d, xs[..n], i + 1, m.opId, Registered(m.request, reply.value.result));
  }

  lemma {:induction false} BoundIsReplayed(d: Backend, xs: seq<Input>, j: nat, m: Message, row: Row)
    requires j < |xs| && xs[j] == Deliver(m) && Bound(Process(d, xs[..j]).0, m.opId, row)
    ensures Process(d, xs).1[j] == Some(if m.request == row.request then Duplicate(row.result) else KeyReuse)
  {
    AnswerOfPrefix(Step, d, xs, j);
    BoundAnswers(Process(d, xs[..j]).0, m, row);
  }

  /** Each id is APPLIED at most once, whatever happens in between, and every later identical
      message gets DUPLICATE with the same entity; a later different one is refused. */
  lemma {:induction false} AppliedOnce(d: Backend, xs: seq<Input>, i: nat, j: nat, m: Message, n: Message)
    requires i < j < |xs| && xs[i] == Deliver(m) && xs[j] == Deliver(n) && m.opId == n.opId
    requires IsApplied(Process(d, xs).1[i])
    ensures Process(d, xs).1[j]
            == Some(if n.request == m.request then Duplicate(Process(d, xs).1[i].value.result) else KeyReuse)
  {
    var reply := Process(d, xs).1[i];
    AppliedStaysBound(d, xs, i, j, m, reply);
    BoundIsReplayed(d, xs, j, n, Registered(m.request, reply.value.result));
  }

  /** One id always carries one request. */
  ghost predicate Consistent(xs: seq<Input>) {
    forall m, n :: Deliver(m) in xs && Deliver(n) in xs && m.opId == n.opId ==> m.request == n.request
  }

  ghost predicate RegisterFrom(register: map<nat, Row>, xs: seq<Input>) {
    forall id :: id in register ==> Deliver(Message(id, register[id].request)) in xs
  }

  lemma {:induction false} StepRegistersItsMessage(d: Backend, x: Input, xs: seq<Input>)
    requires RegisterFrom(d.register, xs)
    ensures RegisterFrom(Step(d, x).0.register, xs + [x])
  {
  }

  lemma {:induction false} RegisterComesFromMessages(d: Backend, xs: seq<Input>)
    requires d.register == map[]
    ensures RegisterFrom(Process(d, xs).0.register, xs)
  {
    if xs != [] {
      var last := |xs| - 1;
      RegisterComesFromMessages(d, xs[..last]);
      StepRegistersItsMessage(Process(d, xs[..last]).0, xs[last], xs[..last]);
      assert xs == xs[..last] + [xs[last]];
    }
  }

  lemma {:induction false} ReuseNeedsAnotherRequest(d: Backend, m: Message)
    ensures Execute(d, m).1 == KeyReuse ==> m.opId in d.register && d.register[m.opId].request != m.request
  {
  }

  /** When clients never reuse an id for another request, nobody is ever told so. */
  lemma {:induction false} ConsistentClientsNeverConflict(d: Backend, xs: seq<Input>, j: nat)
    requires d.register == map[] && Consistent(xs) && j < |xs|
    ensures Process(d, xs).1[j] != Some(KeyReuse)
  {
    AnswerOfPrefix(Step, d, xs, j);
    if xs[j].Deliver? {
      var m, before := xs[j].message, Process(d, xs[..j]).0;
      RegisterComesFromMessages(d, xs[..j]);
      ReuseNeedsAnotherRequest(before, m);
      if m.opId in before.register {
        var first := Message(m.opId, before.register[m.opId].request);
        assert Deliver(first) in xs[..j] && Deliver(m) in xs;
      }
    }
  }

  // ---- verdicts of a batch -----------------------------------------------------

  datatype Status = APPLIED | DUPLICATE | REJECTED | CONFLICT

  datatype Problem = Envelope_(bad: BadEnvelope) | Reused | Domain(error: Error)

  datatype SyncResult = SyncResult(
    opId: nat, status: Status, entity: Option<Entity>, problem: Option<Problem>, serverState: Option<Entity>)

  predicate IsConflict(error: Error) {
    error == AlreadyRecorded || error == RolloverRequired
  }

  function ActiveRecord(rs: seq<Record>, customer: nat, date: Date): (r: Option<nat>)
    ensures r.Some? ==> r.value < |rs| && rs[r.value].status == Active
                        && rs[r.value].customer == customer && rs[r.value].date == date
    ensures r.None? ==> !SlotTaken(rs, customer, date)
  {
    if rs == [] then None
    else
      var last := |rs| - 1;
      if rs[last].status == Active && rs[last].customer == customer && rs[last].date == date then Some(last)
      else
        var earlier := ActiveRecord(rs[..last], customer, date);
        assert earlier.None? ==> forall i :: 0 <= i < last ==> rs[..last][i] == rs[i];
        earlier
  }

  /** What the server holds, for a person to judge a conflict by. */
  function ConflictState(d: Backend, intent: Intent): Option<Entity> {
    match intent
    case Doing(_, _) => None
    case Recording(p) =>
      match ActiveRecord(d.books.records, p.customer, if p.date.Some? then p.date.value else d.books.today)
      case None => None
      case Some(i) => Some(RecordEntity(i, d.books.records[i]))
  }

  function ResultOf(d: Backend, m: Message, verdict: Reply): SyncResult {
    match verdict
    case Applied(entity) => SyncResult(m.opId, APPLIED, entity, None, None)
    case Duplicate(original) => SyncResult(m.opId, DUPLICATE, original, None, None)
    case KeyReuse =>
      SyncResult(m.opId, CONFLICT, None, Some(Reused), if m.opId in d.register then d.register[m.opId].result else None)
    case Failed(error) =>
      if IsConflict(error)
      then SyncResult(m.opId, CONFLICT, None, Some(Domain(error)), ConflictState(d, m.request.payload))
      else SyncResult(m.opId, REJECTED, None, Some(Domain(error)), None)
  }

  function ApplyEnvelope(d: Backend, e: Envelope): (Backend, SyncResult) {
    match FromSync(e)
    case Err(bad) => (d, SyncResult(e.opId, REJECTED, None, Some(Envelope_(bad)), None))
    case Ok(m) =>
      var executed := Execute(d, m);
      (executed.0, ResultOf(executed.0, m, executed.1))
  }

  /** A valid envelope under a new id whose command the books accept. */
  predicate FirstAndAcceptable(d: Backend, e: Envelope) {
    FromSync(e).Ok? && e.opId !in d.register
    && Apply(d.books, CommandOf(FromSync(e).value.request.payload)).error.None?
  }

  /** The day an envelope is about. */
  function DayOf(d: Backend, e: Envelope): Date
    requires e.payload.RecordBody?
  {
    if e.payload.raw.date.Some? then e.payload.raw.date.value else d.books.today
  }

  /** The verdicts tell the truth: APPLIED exactly for a valid envelope under a new id whose
      command the books accept, and then one record was added and the id bound to it;
      otherwise every table is as it was. A taken slot is reported with the ACTIVE record of
      the envelope's own customer and day. */
  lemma {:induction false} VerdictsAreTruthful(d: Backend, e: Envelope)
    ensures var (d', r) := ApplyEnvelope(d, e);
            (r.status == APPLIED <==> FirstAndAcceptable(d, e))
            && (r.status == APPLIED ==>
                  e.opId in d'.register && |d'.books.records| == |d.books.records| + 1
                  && r.entity == Some(RecordEntity(|d.books.records|, d'.books.records[|d.books.records|])))
            && (r.status != APPLIED ==>
                  d'.register == d.register && d'.books == d.books.(nextVersion := d'.books.nextVersion))
            && (r.status == DUPLICATE <==>
                  FromSync(e).Ok? && e.opId in d.register && d.register[e.opId].request == FromSync(e).value.request)
            && (r.status == DUPLICATE ==> r.entity == d.register[e.opId].result)
            && (r.problem == Some(Domain(AlreadyRecorded)) ==>
                  r.status == CONFLICT && e.payload.RecordBody?
                  && r.serverState.Some? && r.serverState.value.RecordEntity?
                  && var (i, held) := (r.serverState.value.id, r.serverState.value.record);
                     i < |d'.books.records| && held == d'.books.records[i] && held.status == Active
                     && held.customer == e.payload.raw.customer && held.date == DayOf(d, e))
  {
    if FromSync(e).Ok? && e.opId !in d.register {
      FreshVerdictIsTruthful(d, e, FromSync(e).value.request.payload.payload);
    }
  }

  /** The same for a new id, of the payload that it carries. */
  lemma {:induction false} FreshVerdictIsTruthful(d: Backend, e: Envelope, p: Payload)
    requires e.opId !in d.register && FromSync(e) == Ok(Message(e.opId, Request(e.op, Recording(p))))
    ensures var (d', r) := ApplyEnvelope(d, e);
            (Apply(d.books, RecordingOf(p)).error.None? ==>
               r.status == APPLIED && |d'.books.records| == |d.books.records| + 1
                 && r.entity == Some(RecordEntity(|d.books.records|, d'.books.records[|d.books.records|])))
            && (Apply(d.books, RecordingOf(p)).error.Some? ==>
                  (r.status == CONFLICT || r.status == REJECTED) && SameTables(d.books, d'.books)
                    && (r.problem == Some(Domain(AlreadyRecorded)) ==>
                          r.status == CONFLICT && r.serverState == ConflictState(d', Recording(p))
                            && SlotTaken(d'.books.records, p.customer,
                                         if p.date.Some? then p.date.value else d'.books.today)))
  {
    var cmd := RecordingOf(p);
    if Apply(d.books, cmd).error.None? {
      AcceptedServiceAppends(d.books, cmd);
    } else {
      RefusedServiceKeepsTables(d.books, cmd);
      RefusedSlotIsTaken(d.books, p);
    }
  }

  lemma {:induction false} RefusedSlotIsTaken(b: Books, payload: Payload)
    ensures Apply(b, RecordingOf(payload)).error == Some(AlreadyRecorded) ==>
              SlotTaken(b.records, payload.customer, if payload.date.Some? then payload.date.value else b.today)
  {
  }

  function ApplyEnvelopes(d: Backend, es: seq<Envelope>): (Backend, seq<SyncResult>) {
    Fold(ApplyEnvelope, d, es)
  }

  /** The messages a batch really contains. */
  function MessagesOf(es: seq<Envelope>): seq<Input> {
    if es == [] then []
    else
      match FromSync(es[|es| - 1])
      case Err(_) => MessagesOf(es[..|es| - 1])
      case Ok(m) => MessagesOf(es[..|es| - 1]) + [Deliver(m)]
  }

  /** A batch is its messages one by one: a bad entry cannot undo the entries beside it. */
  lemma {:induction false} BatchIsItsMessages(d: Backend, es: seq<Envelope>)
    ensures ApplyEnvelopes(d, es).0 == Process(d, MessagesOf(es)).0
  {
    if es != [] {
      var last := |es| - 1;
      BatchIsItsMessages(d, es[..last]);
      EnvelopeIsItsMessage(ApplyEnvelopes(d, es[..last]).0, es[last]);
      if FromSync(es[last]).Ok? {
        assert MessagesOf(es)[..|MessagesOf(es)| - 1] == MessagesOf(es[..last]);
      }
    }
  }

  lemma {:induction false} EnvelopeIsItsMessage(d: Backend, e: Envelope)
    ensures ApplyEnvelope(d, e).0 == if FromSync(e).Ok? then Execute(d, FromSync(e).value).0 else d
  {
  }

  // ---- in place ----------------------------------------------------------------

  class OperationDesk {
    const tenant: Tenant
    var register: map<nat, Row>

    ghost predicate Valid()
      reads this, tenant, tenant.store
    {
      tenant.Valid() && forall id :: id in register ==> register[id].result.Some?
    }

    function View(): Backend
      reads this, tenant, tenant.store
    {
      Backend(tenant.store.View(), register)
    }

    constructor (tenant: Tenant)
      requires tenant.Valid()
      ensures Valid() && this.tenant == tenant && register == map[]
    {
      this.tenant, register := tenant, map[];
    }

    method ExecuteIdempotent(m: Message) returns (verdict: Reply)
      requires Valid()
      modifies this, tenant, tenant.store
      ensures Valid() && Execute(old(View()), m) == (View(), verdict)
    {
      if m.opId in register {
        var existing := register[m.opId];
        if existing.request != m.request {
          return KeyReuse;
        }
        return Duplicate(existing.result);
      }
      verdict := Perform(m);
    }

    /** Claim the id, perform the effect, fill the result in, commit; or roll the claim
        back with the effect. */
    method Perform(m: Message) returns (verdict: Reply)
      requires Valid() && m.opId !in register
      modifies this, tenant, tenant.store
      ensures Valid() && Execute(old(View()), m) == (View(), verdict)
    {
      var committed, before := register, tenant.store.View();
      register := register[m.opId := Registered(m.request, None)];
      var error := tenant.Execute(CommandOf(m.request.payload));
      assert Apply(before, CommandOf(m.request.payload)) == Outcome(tenant.store.View(), error);
      if error.Some? {
        register := committed;
        return Failed(error.value);
      }
      AcceptedHasItsDocument(before, m.request.payload);
      var entity := EntityOf(before, CommandOf(m.request.payload), tenant.store.View());
      register := register[m.opId := Registered(m.request, entity)];
      assert register == committed[m.opId := Registered(m.request, entity)];
      return Applied(entity);
    }

    method ApplyOperation(e: Envelope) returns (r: SyncResult)
      requires Valid()
      modifies this, tenant, tenant.store
      ensures Valid() && ApplyEnvelope(old(View()), e) == (View(), r)
    {
      var parsed := FromSync(e);
      if parsed.Err? {
        return SyncResult(e.opId, REJECTED, None, Some(Envelope_(parsed.error)), None);
      }
      var verdict := ExecuteIdempotent(parsed.value);
      return ResultOf(View(), parsed.value, verdict);
    }

    /** Every entry in its own transaction, in order. */
    method ApplyBatch(es: seq<Envelope>) returns (results: seq<SyncResult>)
      requires Valid()
      modifies this, tenant, tenant.store
      ensures Valid() && ApplyEnvelopes(old(View()), es) == (View(), results)
    {
      ghost var before := View();
      results := [];
      var i := 0;
      while i < |es|
        invariant 0 <= i <= |es| && Valid()
        invariant ApplyEnvelopes(before, es[..i]) == (View(), results)
      {
        assert es[..i + 1][..i] == es[..i];
        var r := ApplyOperation(es[i]);
        results := results + [r];
        i := i + 1;
      }
      assert es[..i] == es;
    }
  }
}
