/** What each entry of a sync batch is answered with, in the terms of the entry, of the
    register and of the command's own error. */
module OperationVerdicts {
  import opened Outcomes
  import opened Calendar
  import opened Money
  import opened Records
  import opened Books
  import opened BooksInvariants
  import opened Registers
  import opened Operations
  import Ops = OpTypes

  // ---- envelopes ---------------------------------------------------------------

  /** A body as it is validated: an omitted kind is SERVICE, an omitted input method a
      button. */
  ghost predicate Validates(body: Body, p: Payload) {
    body.RecordBody? && body.raw.wellFormed
    && p.customer == body.raw.customer && p.quantity == body.raw.quantity && p.date == body.raw.date
    && (if body.raw.kind.Some? then p.kind == body.raw.kind.value else p.kind == Service)
    && (if body.raw.input.Some? then p.input == body.raw.input.value else p.input == Button)
  }

  ghost predicate IsValid(body: Body) {
    body.RecordBody? && body.raw.wellFormed
  }

  /** The operation type says SKIP exactly when the body does. */
  ghost predicate Matches(e: Envelope)
    requires IsValid(e.payload)
  {
    e.op == Ops.ServiceSkip <==> e.payload.raw.kind == Some(Skip)
  }

  ghost predicate IsGood(e: Envelope, p: Payload) {
    (e.op == Ops.ServiceRecord || e.op == Ops.ServiceSkip) && Validates(e.payload, p) && Matches(e)
  }

  /** What is wrong with an envelope, if anything; a good one asks for its payload, under its
      own type and id. */
  lemma EnvelopesExactly(e: Envelope)
    ensures FromSync(e) == Err(UnsupportedOp) <==> e.op != Ops.ServiceRecord && e.op != Ops.ServiceSkip
    ensures FromSync(e) == Err(InvalidPayload)
            <==> (e.op == Ops.ServiceRecord || e.op == Ops.ServiceSkip) && !IsValid(e.payload)
    ensures FromSync(e) == Err(OpDoesNotMatchKind)
            <==> (e.op == Ops.ServiceRecord || e.op == Ops.ServiceSkip) && IsValid(e.payload) && !Matches(e)
    ensures FromSync(e).Ok? ==>
              exists p :: IsGood(e, p) && FromSync(e) == Ok(Message(e.opId, Request(e.op, Recording(p))))
  {
    if FromSync(e).Ok? {
      assert IsGood(e, Parse(e.payload.raw).value);
    }
  }

  /** Online, each route registers under its own type; a recording's is its kind's. */
  lemma OnlineExactly(opId: nat, body: Body)
    ensures FromOnline(opId, body) == Err(InvalidPayload) <==> body.RecordBody? && !body.raw.wellFormed
    ensures FromOnline(opId, body).Err? ==> FromOnline(opId, body) == Err(InvalidPayload)
    ensures FromOnline(opId, body).Ok? && body.RecordBody? ==>
              exists p :: Validates(body, p)
                          && FromOnline(opId, body)
                             == Ok(Message(opId, Request(if p.kind == Skip then Ops.ServiceSkip else Ops.ServiceRecord,
                                                         Recording(p))))
    ensures body.OtherBody? ==>
              FromOnline(opId, body)
              == Ok(Message(opId, Request(match body.cmd
                                          case CorrectServiceCmd(_, _, _, _) => Ops.ServiceCorrect
                                          case VoidServiceCmd(_, _) => Ops.ServiceVoid
                                          case RecordPaymentCmd(_, _, _) => Ops.PaymentRecord
                                          case VoidPaymentCmd(_, _) => Ops.PaymentVoid
                                          case CloseCycleCmd(_) => Ops.CycleClose
                                          case CreatePlanCmd(_) => Ops.PlanCreate
                                          case SetCustomer(_, _) => Ops.CustomerUpdate,
                                          Doing(body.cmd, body.rest))))
  {
    if body.RecordBody? && body.raw.wellFormed {
      assert Validates(body, Parse(body.raw).value);
    }
  }

  // ---- verdicts ----------------------------------------------------------------

  /** The recording that a good envelope asks the books for. */
  function Asked(p: Payload): Command {
    RecordServiceCmd(p.customer, p.kind, p.quantity, p.date)
  }

  /** The slot's own ACTIVE record, as the server holds it. */
  ghost predicate IsHolder(b: Books, p: Payload, state: Option<Entity>) {
    state.Some? && state.value.RecordEntity? && state.value.id < |b.records|
    && state.value.record == b.records[state.value.id] && state.value.record.status == Active
    && state.value.record.customer == p.customer
    && state.value.record.date == if p.date.Some? then p.date.value else b.today
  }

  /** The answer to a good envelope under an unbound id. */
  ghost predicate FreshAnswer(d: Backend, e: Envelope, p: Payload, d': Backend, r: SyncResult) {
    var error := Apply(d.books, Asked(p)).error;
    d'.books == Apply(d.books, Asked(p)).books
    && (if error.None? then
          |d'.books.records| == |d.books.records| + 1
          && r == SyncResult(e.opId, APPLIED,
                             Some(RecordEntity(|d.books.records|, d'.books.records[|d.books.records|])), None, None)
          && d'.register == d.register[e.opId := Registered(Request(e.op, Recording(p)), r.entity)]
        else
          d'.register == d.register && SameTables(d.books, d'.books)
          && (if error.value == AlreadyRecorded then
                r == SyncResult(e.opId, CONFLICT, None, Some(Domain(AlreadyRecorded)), r.serverState)
                && IsHolder(d.books, p, r.serverState)
              else if error.value == RolloverRequired then
                r == SyncResult(e.opId, CONFLICT, None, Some(Domain(RolloverRequired)), None)
              else r == SyncResult(e.opId, REJECTED, None, Some(Domain(error.value)), None)))
  }

  /** The answer to a good envelope under an id already bound: the bound result, as the
      original's document or as what the reused id stands for. Nothing changes. */
  ghost predicate BoundAnswer(d: Backend, e: Envelope, p: Payload, d': Backend, r: SyncResult)
    requires e.opId in d.register
  {
    var row := d.register[e.opId];
    d' == d
    && (if row.request == Request(e.op, Recording(p)) then r == SyncResult(e.opId, DUPLICATE, row.result, None, None)
        else r == SyncResult(e.opId, CONFLICT, None, Some(Reused), row.result))
  }

  /** The answer to an envelope that names no recording. Nothing changes. */
  ghost predicate BadAnswer(d: Backend, e: Envelope, d': Backend, r: SyncResult) {
    d' == d
    && exists bad :: r == SyncResult(e.opId, REJECTED, None, Some(Envelope_(bad)), None)
                     && (match bad
                         case UnsupportedOp => e.op != Ops.ServiceRecord && e.op != Ops.ServiceSkip
                         case InvalidPayload =>
                           (e.op == Ops.ServiceRecord || e.op == Ops.ServiceSkip) && !IsValid(e.payload)
                         case OpDoesNotMatchKind =>
                           (e.op == Ops.ServiceRecord || e.op == Ops.ServiceSkip) && IsValid(e.payload) && !Matches(e))
  }

  /** Every envelope, whatever the state: its one answer. */
  lemma {:induction false} AnswersExactly(d: Backend, e: Envelope, d': Backend, r: SyncResult)
    requires ApplyEnvelope(d, e) == (d', r)
    ensures (exists p :: IsGood(e, p)
                         && if e.opId in d.register then BoundAnswer(d, e, p, d', r) else FreshAnswer(d, e, p, d', r))
            || ((forall p :: !IsGood(e, p)) && BadAnswer(d, e, d', r))
  {
    EnvelopesExactly(e);
    match FromSync(e)
    case Err(bad) =>
      assert r == SyncResult(e.opId, REJECTED, None, Some(Envelope_(bad)), None);
    case Ok(m) =>
      var p :| IsGood(e, p) && m == Message(e.opId, Request(e.op, Recording(p)));
      if e.opId !in d.register {
        FreshIsAnswered(d, e, m, p, d', r);
      }
  }

  lemma {:induction false} FreshIsAnswered(d: Backend, e: Envelope, m: Message, p: Payload, d': Backend, r: SyncResult)
    requires e.opId !in d.register && FromSync(e) == Ok(m) && m == Message(e.opId, Request(e.op, Recording(p)))
    requires ApplyEnvelope(d, e) == (d', r)
    ensures FreshAnswer(d, e, p, d', r)
  {
    if Apply(d.books, Asked(p)).error.None? {
      AcceptedServiceAppends(d.books, Asked(p));
    } else {
      RefusedServiceKeepsTables(d.books, Asked(p));
      RefusedSlot(d.books, p);
    }
  }

  /** A recording is refused as already recorded only over a taken slot, and for the rollover
      only over a free one. */
  lemma {:induction false} RefusedSlot(b: Books, p: Payload)
    ensures var on := if p.date.Some? then p.date.value else b.today;
            (Apply(b, Asked(p)).error == Some(AlreadyRecorded) ==> SlotTaken(b.records, p.customer, on))
            && (Apply(b, Asked(p)).error == Some(RolloverRequired) ==> !SlotTaken(b.records, p.customer, on))
  {
  }

  /** So an entry conflicts exactly for an id bound to another request, a slot already
      recorded and a rollover that is due; and is rejected exactly for a bad envelope and any
      other refusal. It is answered under its own id. */
  lemma {:induction false} VerdictsExactly(d: Backend, e: Envelope, p: Payload)
    requires IsGood(e, p)
    ensures var r := ApplyEnvelope(d, e).1;
            var bound, error := e.opId in d.register, Apply(d.books, Asked(p)).error;
            r.opId == e.opId
            && (r.status == CONFLICT
                <==> if bound then d.register[e.opId].request != Request(e.op, Recording(p))
                     else error == Some(AlreadyRecorded) || error == Some(RolloverRequired))
            && (r.status == REJECTED
                <==> !bound && error.Some? && error != Some(AlreadyRecorded) && error != Some(RolloverRequired))
            && (r.status == DUPLICATE <==> bound && d.register[e.opId].request == Request(e.op, Recording(p)))
            && (r.status == APPLIED <==> !bound && error.None?)
  {
    var (d', r) := ApplyEnvelope(d, e);
    AnswersExactly(d, e, d', r);
    if q :| IsGood(e, q) {
      assert q == p;
    }
  }
}
