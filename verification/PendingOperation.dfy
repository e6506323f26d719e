/** The client half of exactly-once: one unresolved write that keeps its identity. */
module PendingOperation {
  import opened Outcomes
  import opened Books
  import opened BooksInvariants
  import opened Registers
  import opened Operations
  import opened OperationEffects
  import opened Folds

  datatype Phase = Idle | Sending | Unresolved

  /** How an attempt ends: an applied or duplicate result, a refusal (a verdict or a lost
      session), or a transport failure, which is not a verdict. */
  datatype Ending = Done | Refused | Lost

  /** An id never travels with two different envelopes. */
  ghost predicate SameIdSameEnvelope(sent: seq<Envelope>) {
    forall i, j :: 0 <= i < |sent| && 0 <= j < |sent| && sent[i].opId == sent[j].opId ==> sent[i] == sent[j]
  }

  class Pending {
    var phase: Phase
    var failed: bool
    var operationId: Option<nat>
    var envelope: Option<Envelope>
    var inFlight: seq<Envelope>       // attempts whose reply has not arrived
    ghost var sent: seq<Envelope>     // every attempt ever made, oldest first

    ghost predicate Valid()
      reads this
    {
      SameIdSameEnvelope(sent)
      && (envelope.Some? ==> envelope.value in sent)
      && operationId == (if envelope.Some? then Some(envelope.value.opId) else None)
      && forall e :: e in inFlight ==> e in sent
    }

    /** One attempt at a time, and an envelope exactly while the write is unsettled. */
    ghost predicate Orderly()
      reads this
    {
      (phase == Idle <==> envelope.None?)
      && inFlight == if phase == Sending && envelope.Some? then [envelope.value] else []
    }

    constructor ()
      ensures Valid() && Orderly() && phase == Idle && sent == []
    {
      phase, failed, operationId, envelope, inFlight, sent := Idle, false, None, None, [], [];
    }

    method Dispatch(e: Envelope)
      requires Valid() && envelope == Some(e) && SameIdSameEnvelope(sent + [e])
      modifies this
      ensures Valid() && phase == Sending && !failed && envelope == old(envelope)
      ensures sent == old(sent) + [e] && inFlight == old(inFlight) + [e]
    {
      phase, failed := Sending, false;
      inFlight := inFlight + [e];
      sent := sent + [e];
    }

    /** A new intent gets a new envelope, under an id never used before. */
    method Start(e: Envelope)
      requires Valid() && forall i :: 0 <= i < |sent| ==> sent[i].opId != e.opId
      modifies this
      ensures Valid() && sent == old(sent) + [e] && envelope == Some(e)
      ensures old(Orderly()) && old(phase) == Idle ==> Orderly() && phase == Sending
    {
      envelope, operationId := Some(e), Some(e.opId);
      phase, failed := Sending, false;
      inFlight := inFlight + [e];
      sent := sent + [e];
    }

    /** The kept envelope goes out again, unchanged; without one nothing happens. */
    method Retry() returns (resent: bool)
      requires Valid()
      modifies this
      ensures Valid() && envelope == old(envelope) && (resent <==> envelope.Some?)
      ensures sent == if resent then old(sent) + [envelope.value] else old(sent)
      ensures !resent ==> phase == old(phase)
      ensures old(Orderly()) && old(phase) == Unresolved ==> resent && Orderly() && phase == Sending
    {
      if envelope.None? {
        return false;
      }
      assert forall e :: e in sent + [envelope.value] <==> e in sent;
      Dispatch(envelope.value);
      return true;
    }

    method Discard()
      requires Valid()
      modifies this
      ensures Valid() && phase == Idle && envelope.None? && sent == old(sent) && inFlight == old(inFlight)
      ensures old(Orderly()) && old(phase) != Sending ==> Orderly()
    {
      envelope, operationId, failed, phase := None, None, false, Idle;
    }

    /** A reply arrives for one attempt. A refusal or a result settles the write; a lost
        reply keeps its envelope for a retry. The write is left unresolved with nothing to
        retry exactly when a reply is lost after the envelope was already let go. */
    method Settle(i: nat, reply: Ending)
      requires Valid() && i < |inFlight|
      modifies this
      ensures Valid() && sent == old(sent) && inFlight == old(inFlight)[..i] + old(inFlight)[i + 1..]
      ensures reply == Lost ==> phase == Unresolved && envelope == old(envelope)
      ensures reply != Lost ==> phase == Idle && envelope.None?
      ensures phase == Unresolved && envelope.None? <==> reply == Lost && old(envelope).None?
      ensures old(Orderly()) ==> Orderly()
    {
      inFlight := inFlight[..i] + inFlight[i + 1..];
      failed := reply != Done;
      if reply == Lost {
        phase := Unresolved;
      } else {
        envelope, operationId, phase := None, None, Idle;
      }
    }
  }

  // ---- end to end --------------------------------------------------------------

  /** A message that some attempt carried, over either transport. */
  ghost predicate Carried(sent: seq<Envelope>, m: Message) {
    exists i :: 0 <= i < |sent| && (FromSync(sent[i]) == Ok(m) || FromOnline(sent[i].opId, sent[i].payload) == Ok(m))
  }

  lemma {:induction false} CarriedMessagesAgree(sent: seq<Envelope>, m: Message, n: Message)
    requires SameIdSameEnvelope(sent) && Carried(sent, m) && Carried(sent, n) && m.opId == n.opId
    ensures m == n
  {
    var i :| 0 <= i < |sent| && (FromSync(sent[i]) == Ok(m) || FromOnline(sent[i].opId, sent[i].payload) == Ok(m));
    var j :| 0 <= j < |sent| && (FromSync(sent[j]) == Ok(n) || FromOnline(sent[j].opId, sent[j].payload) == Ok(n));
    TransportsAgree(sent[i]);
    TransportsAgree(sent[j]);
  }

  /** Every delivered message was carried by some attempt of the client; anything may happen
      to the books between deliveries. */
  ghost predicate FromAttempts(sent: seq<Envelope>, xs: seq<Input>) {
    forall k :: 0 <= k < |xs| && xs[k].Deliver? ==> Carried(sent, xs[k].message)
  }

  lemma {:induction false} AttemptsAreConsistent(sent: seq<Envelope>, xs: seq<Input>)
    requires SameIdSameEnvelope(sent) && FromAttempts(sent, xs)
    ensures Consistent(xs)
  {
    forall m, n | Deliver(m) in xs && Deliver(n) in xs && m.opId == n.opId ensures m.request == n.request {
      CarriedMessagesAgree(sent, m, n);
    }
  }

  /** Whatever the network delivers of the client's attempts, of whatever operations, in any
      order, any number of times, over either transport, and whatever else happens to the
      books in between: no id is refused as reused; all deliveries of one id together change
      the tables at most once, and do so exactly when one of them was APPLIED; and every later
      one is answered with that one's document. */
  lemma {:induction false} EndToEnd(sent: seq<Envelope>, d: Backend, xs: seq<Input>, i: nat, j: nat)
    requires Inv(d.books) && SameIdSameEnvelope(sent) && d.register == map[] && FromAttempts(sent, xs)
    requires j < |xs| && xs[j].Deliver?
    ensures var replies, id := Process(d, xs).1, xs[j].message.opId;
            replies[j] != Some(KeyReuse)
            && EffectsOf(d, xs, id) == One(id in Process(d, xs).0.register)
            && CreatedBy(d, xs, id) == One(BoundToRecord(Process(d, xs).0, id))
            && (id in Process(d, xs).0.register ==>
                  HoldsOutcome(Process(d, xs).0.books, Process(d, xs).0.register[id]))
            && (IsApplied(replies[j]) ==>
                  Bound(Process(d, xs).0, id, Registered(xs[j].message.request, replies[j].value.result)))
            && (i < j && xs[i].Deliver? && xs[i].message.opId == id && IsApplied(replies[i]) ==>
                  replies[j] == Some(Duplicate(replies[i].value.result)))
  {
    var id, m := xs[j].message.opId, xs[j].message;
    AttemptsAreConsistent(sent, xs);
    ConsistentClientsNeverConflict(d, xs, j);
    OneEffectPerId(d, xs, id);
    OneRecordPerId(d, xs, id);
    if IsApplied(Process(d, xs).1[j]) {
      AppliedStaysBound(d, xs, j, |xs|, m, Process(d, xs).1[j]);
      assert xs[..|xs|] == xs;
    }
    if i < j && xs[i].Deliver? && xs[i].message.opId == id && IsApplied(Process(d, xs).1[i]) {
      assert Deliver(xs[i].message) in xs && Deliver(m) in xs;
      AppliedOnce(d, xs, i, j, xs[i].message, m);
    }
  }

  /** A delivery of the id among the first `n` inputs was APPLIED. */
  ghost predicate AppliedBefore(xs: seq<Input>, replies: seq<Option<Operations.Reply>>, n: nat, id: nat) {
    exists i :: 0 <= i < n && i < |xs| && i < |replies| && xs[i].Deliver? && xs[i].message.opId == id
      && IsApplied(replies[i])
  }

  /** And exactly when a delivery takes effect: when no delivery of its id did before and the
      books would accept its command now. */
  lemma {:induction false} TakesEffectExactly(d: Backend, xs: seq<Input>, j: nat)
    requires Inv(d.books) && d.register == map[] && j < |xs| && xs[j].Deliver?
    ensures IsApplied(Process(d, xs).1[j])
            <==> Acceptable(Process(d, xs[..j]).0.books, CommandOf(xs[j].message.request.payload))
                 && !AppliedBefore(xs, Process(d, xs).1, j, xs[j].message.opId)
  {
    AppliedExactly(d, xs, j, xs[j].message);
    BoundExactly(d, xs, j, xs[j].message.opId, Process(d, xs).1);
  }

  lemma {:induction false} OneMoreBound(d: Backend, x: Input, id: nat)
    ensures id in Step(d, x).0.register
            <==> id in d.register || (x.Deliver? && x.message.opId == id && IsApplied(Step(d, x).1))
  {
  }

  lemma {:induction false} OneMoreApplied(
      xs: seq<Input>, replies: seq<Option<Operations.Reply>>, m: nat, n: nat, id: nat)
    requires n == m + 1 && n <= |xs| && |replies| == |xs|
    ensures AppliedBefore(xs, replies, n, id)
            <==> AppliedBefore(xs, replies, m, id)
                 || (xs[m].Deliver? && xs[m].message.opId == id && IsApplied(replies[m]))
  {
  }

  /** An id is bound exactly when some delivery of it was APPLIED. */
  lemma {:induction false} BoundExactly(
      d: Backend, xs: seq<Input>, n: nat, id: nat, replies: seq<Option<Operations.Reply>>)
    requires d.register == map[] && n <= |xs| && replies == Process(d, xs).1
    ensures id in Process(d, xs[..n]).0.register <==> AppliedBefore(xs, replies, n, id)
  {
    if 0 < n {
      var m: nat := n - 1;
      BoundExactly(d, xs, m, id, replies);
      AnswerOfPrefix(Step, d, xs, m);
      OneMoreBound(Process(d, xs[..m]).0, xs[m], id);
      OneMoreApplied(xs, replies, m, n, id);
    }
  }
}
