/** What the sync protocol promises, over every run: gap-free cursors, exactly-once
    effects, and an open cycle that is never created twice. */
module SyncTheorems {
  import opened Outcomes
  import opened OpTypes
  import opened Registers
  import Feed
  import opened SyncProtocol
  import opened SyncInvariants

  // ---- gap-freedom -------------------------------------------------------------

  /** Nothing in flight can commit a row below a committed version of its tenant, or below
      a cursor any of its clients has reached. */
  lemma {:induction false} NothingCommitsBelow(
      keyOf: nat -> int, actions: seq<Action>, t: nat, id: nat, k: Key, c: nat)
    requires var s := Run(keyOf, actions); t in s.txns && id in s.txns[t].writes
    ensures var s := Run(keyOf, actions);
            var v := s.txns[t].writes[id].version;
            (k in s.rows && k.tenant == s.txns[t].tenant ==> s.rows[k].version < v)
            && (c in s.clients && s.clients[c].tenant == s.txns[t].tenant ==> s.clients[c].cursor < v)
  {
    var s := Run(keyOf, actions);
    RunKeeps(keyOf, actions);
    assert TxnOk(keyOf, s, t, s.txns[t]);
  }

  /** A client that applies rows by identity always holds the server's current copy of
      every row at or below its cursor, and nothing the server never committed. */
  lemma {:induction false} ClientsNeverMissARow(keyOf: nat -> int, actions: seq<Action>, c: nat)
    requires c in Run(keyOf, actions).clients
    ensures var s := Run(keyOf, actions); ClientOk(s.rows, s.history, s.clients[c])
  {
    RunKeeps(keyOf, actions);
  }

  /** A committed row is only ever replaced by a copy with a higher version. */
  ghost predicate RowsRise(rows: map<Key, Row>, rows': map<Key, Row>) {
    forall k :: k in rows ==> k in rows' && rows[k].version <= rows'[k].version
  }

  /** Copies committed since are above everything that was committed then. */
  ghost predicate CommitsAbove(s: Server, s': Server) {
    forall tenant, row :: (tenant, row) in s'.history && (tenant, row) !in s.history ==>
        AboveTenant(s.rows, tenant, row.version)
  }

  ghost predicate AboveTenant(rows: map<Key, Row>, tenant: nat, version: nat) {
    forall k :: k in rows && k.tenant == tenant ==> rows[k].version < version
  }

  lemma {:induction false} StepCommitsAbove(keyOf: nat -> int, s: Server, a: Action)
    requires Inv(keyOf, s)
    ensures RowsRise(s.rows, Next(keyOf, s, a).rows) && CommitsAbove(s, Next(keyOf, s, a))
  {
    if a.Commit? {
      if a.txn in s.txns && s.txns[a.txn].phase == Claimed {
        CommitRises(keyOf, s, a.txn, a.result);
      }
    } else {
      OthersCommitNothing(keyOf, s, a);
    }
  }

  lemma {:induction false} CommitRises(keyOf: nat -> int, s: Server, t: nat, result: int)
    requires Inv(keyOf, s) && t in s.txns && s.txns[t].phase == Claimed
    ensures RowsRise(s.rows, DoCommit(s, t, result).rows) && CommitsAbove(s, DoCommit(s, t, result))
  {
    assert TxnOk(keyOf, s, t, s.txns[t]);
  }

  lemma {:induction false} AboveChains(s: Server, m: Server, s': Server)
    requires RowsRise(s.rows, m.rows) && CommitsAbove(s, m) && RowsRise(m.rows, s'.rows) && CommitsAbove(m, s')
    ensures RowsRise(s.rows, s'.rows) && CommitsAbove(s, s')
  {
    forall tenant, row | (tenant, row) in s'.history && (tenant, row) !in s.history
      ensures AboveTenant(s.rows, tenant, row.version)
    {
      if (tenant, row) !in m.history {
        assert AboveTenant(m.rows, tenant, row.version);
      }
    }
  }

  /** Within a tenant commit order is version order: whatever commits after any point of a
      run has a higher version than everything committed by then. */
  lemma {:induction false} CommitOrderIsVersionOrder(keyOf: nat -> int, actions: seq<Action>, n: nat)
    requires n <= |actions|
    ensures CommitsAbove(Run(keyOf, actions[..n]), Run(keyOf, actions))
    ensures RowsRise(Run(keyOf, actions[..n]).rows, Run(keyOf, actions).rows)
  {
    if n == |actions| {
      assert actions[..n] == actions;
    } else {
      var last := |actions| - 1;
      assert actions[..last][..n] == actions[..n];
      CommitOrderIsVersionOrder(keyOf, actions[..last], n);
      RunKeeps(keyOf, actions[..last]);
      StepCommitsAbove(keyOf, Run(keyOf, actions[..last]), actions[last]);
      AboveChains(Run(keyOf, actions[..n]), Run(keyOf, actions[..last]), Run(keyOf, actions));
    }
  }

  // ---- pages -------------------------------------------------------------------

  /** The committed rows of one tenant, listed in any order. */
  ghost predicate Lists(rows: map<Key, Row>, tenant: nat, list: seq<Row>) {
    (forall x :: x in list <==> IsRowOf(rows, tenant, x))
    && (forall i, j :: 0 <= i < j < |list| ==> list[i] != list[j])
  }

  lemma {:induction false} ListedVersionsAreDistinct(
      next: nat, rows: map<Key, Row>, history: set<(nat, Row)>, tenant: nat, list: seq<Row>)
    requires RowsOk(next, rows, history) && Lists(rows, tenant, list)
    ensures Feed.DistinctVersions(list)
  {
    forall i, j | 0 <= i < j < |list| ensures list[i].version != list[j].version {
      assert list[i] in list && list[j] in list;
      assert IsRowOf(rows, tenant, list[i]) && IsRowOf(rows, tenant, list[j]);
      assert Key(tenant, list[i].id) in rows && Key(tenant, list[j].id) in rows;
    }
  }

  /** In every reachable state the page the route computes from one snapshot is a page in
      the sense the protocol needs, for every limit; and an empty one means the client
      already holds every committed row of its tenant. */
  lemma {:induction false} RoutePagesAreComplete(
      keyOf: nat -> int, actions: seq<Action>, c: nat, list: seq<Row>, limit: nat)
    requires var s := Run(keyOf, actions); c in s.clients && Lists(s.rows, s.clients[c].tenant, list)
    requires 1 <= limit
    ensures var s := Run(keyOf, actions);
            var x := s.clients[c];
            IsPageOf(s.rows, x, Feed.PageOf(list, x.cursor, limit))
            && (Feed.PageOf(list, x.cursor, limit) == [] ==>
                  forall k :: k in s.rows && k.tenant == x.tenant ==> k.id in x.store && x.store[k.id] == s.rows[k])
  {
    var s := Run(keyOf, actions);
    RunKeeps(keyOf, actions);
    ListedPageIsPage(s.nextVersion, s.rows, s.history, s.clients[c], list, limit);
  }

  lemma {:induction false} ListedPageIsPage(
      next: nat, rows: map<Key, Row>, history: set<(nat, Row)>, x: Client, list: seq<Row>, limit: nat)
    requires RowsOk(next, rows, history) && ClientOk(rows, history, x) && Lists(rows, x.tenant, list) && 1 <= limit
    ensures IsPageOf(rows, x, Feed.PageOf(list, x.cursor, limit))
    ensures Feed.PageOf(list, x.cursor, limit) == [] ==>
              forall k :: k in rows && k.tenant == x.tenant ==> k.id in x.store && x.store[k.id] == rows[k]
  {
    ListedVersionsAreDistinct(next, rows, history, x.tenant, list);
    Feed.PageHasNoGap(list, x.cursor, limit);
    if Feed.PageOf(list, x.cursor, limit) == [] {
      forall k | k in rows && k.tenant == x.tenant ensures rows[k].version <= x.cursor {
        assert Key(x.tenant, k.id) == k && IsRowOf(rows, x.tenant, rows[k]);
      }
    }
  }

  // ---- exactly once ------------------------------------------------------------

  /** One operation id has at most one APPLIED; it comes before every other answer; after
      it an identical request gets DUPLICATE with the same result, and a different one is
      refused. */
  lemma {:induction false} ExactlyOnce(keyOf: nat -> int, actions: seq<Action>, i: nat, j: nat)
    requires var answers := Run(keyOf, actions).answers;
             i < |answers| && j < |answers| && i != j && answers[i].register == answers[j].register
             && answers[i].verdict.Applied?
    ensures var answers := Run(keyOf, actions).answers;
            i < j
            && answers[j].verdict
               == if answers[j].request == answers[i].request then Duplicate(answers[i].verdict.result) else KeyReuse
  {
    var s := Run(keyOf, actions);
    RunKeeps(keyOf, actions);
    AppliedComesFirst(s.answers, s.register, i, j);
  }

  lemma {:induction false} AppliedComesFirst(
      answers: seq<Answer>, register: map<Key, Registered<int, int>>, i: nat, j: nat)
    requires AnswersOk(answers, register) && i < |answers| && j < |answers| && i != j
    requires answers[i].register == answers[j].register && answers[i].verdict.Applied?
    ensures i < j
    ensures answers[j].verdict
            == if answers[j].request == answers[i].request then Duplicate(answers[i].verdict.result) else KeyReuse
  {
    assert AnswerOk(register, answers[i]) && AnswerOk(register, answers[j]);
  }

  /** Every answer that is not APPLIED repeats or refuses an APPLIED one before it. */
  lemma {:induction false} RepliesFollowACommit(keyOf: nat -> int, actions: seq<Action>, j: nat)
    requires var answers := Run(keyOf, actions).answers; j < |answers| && !answers[j].verdict.Applied?
    ensures var answers := Run(keyOf, actions).answers;
            exists i :: 0 <= i < j && answers[i].register == answers[j].register && answers[i].verdict.Applied?
  {
    var s := Run(keyOf, actions);
    RunKeeps(keyOf, actions);
    assert Preceded(s.answers, s.register, j);
  }

  /** The committed part of the state. */
  ghost predicate SameCommitted(s: Server, s': Server) {
    s'.register == s.register && s'.rows == s.rows && s'.history == s.history && s'.openCycles == s.openCycles
  }

  /** The answer a step appends, when it is an APPLIED one. */
  predicate Applies(s: Server, s': Server) {
    |s'.answers| == |s.answers| + 1 && s'.answers[|s.answers|].verdict.Applied?
  }

  ghost predicate CommitsWithRegister(s: Server, s': Server) {
    if Applies(s, s') then
      var answer := s'.answers[|s.answers|];
      s'.answers == s.answers + [answer] && answer.register !in s.register
      && s'.register == s.register[answer.register := Registered(answer.request, answer.verdict.result)]
    else SameCommitted(s, s')
  }

  lemma {:induction false} StepCommitsWithRegister(keyOf: nat -> int, s: Server, a: Action)
    requires Inv(keyOf, s)
    ensures CommitsWithRegister(s, Next(keyOf, s, a))
  {
    if a.Commit? {
      CommitBindsItsId(keyOf, s, a.txn, a.result);
    } else {
      OthersCommitNothing(keyOf, s, a);
    }
  }

  lemma {:induction false} CommitBindsItsId(keyOf: nat -> int, s: Server, t: nat, result: int)
    requires Inv(keyOf, s)
    ensures CommitsWithRegister(s, DoCommit(s, t, result))
  {
    if t in s.txns && s.txns[t].phase == Claimed {
      assert TxnOk(keyOf, s, t, s.txns[t]);
      CommitAnswersApplied(s, t, result, s.txns[t], DoCommit(s, t, result));
    }
  }

  lemma {:induction false} CommitAnswersApplied(s: Server, t: nat, result: int, x: Txn, s': Server)
    requires t in s.txns && x == s.txns[t] && x.phase == Claimed && s' == DoCommit(s, t, result)
    ensures s'.answers == s.answers + [Answer(x.Register(), x.request, Applied(result))]
    ensures s'.register == s.register[x.Register() := Registered(x.request, result)]
  {
  }

  lemma {:induction false} OthersCommitNothing(keyOf: nat -> int, s: Server, a: Action)
    requires !a.Commit?
    ensures SameCommitted(s, Next(keyOf, s, a)) && !Applies(s, Next(keyOf, s, a))
  {
    match a
    case Look(t) => LookingCommitsNothing(s, t);
    case Claim(t) => ClaimingCommitsNothing(s, t);
    case _ => AnswersNothing(keyOf, s, a);
  }

  lemma {:induction false} LookingCommitsNothing(s: Server, t: nat)
    ensures SameCommitted(s, DoLook(s, t)) && !Applies(s, DoLook(s, t))
  {
  }

  lemma {:induction false} ClaimingCommitsNothing(s: Server, t: nat)
    ensures SameCommitted(s, DoClaim(s, t)) && !Applies(s, DoClaim(s, t))
  {
  }

  lemma {:induction false} AnswersNothing(keyOf: nat -> int, s: Server, a: Action)
    requires !a.Commit? && !a.Look? && !a.Claim?
    ensures SameCommitted(s, Next(keyOf, s, a)) && Next(keyOf, s, a).answers == s.answers
  {
  }

  /** Effect and register commit together or not at all: a step that changes anything
      committed binds a fresh operation id and answers APPLIED; every other step, replays
      and refusals included, changes nothing committed. */
  lemma {:induction false} EffectsCommitWithTheirRegister(keyOf: nat -> int, actions: seq<Action>, a: Action)
    ensures CommitsWithRegister(Run(keyOf, actions), Next(keyOf, Run(keyOf, actions), a))
  {
    RunKeeps(keyOf, actions);
    StepCommitsWithRegister(keyOf, Run(keyOf, actions), a);
  }

  /** What a client meets: when the tenant's lock is free, a retry of a registered operation
      is answered from the register and changes nothing committed. */
  lemma {:induction false} RetriesAreAnswered(
      keyOf: nat -> int, s: Server, t: nat, tenant: nat, opId: nat, request: Request<int>)
    requires t !in s.txns && Key(tenant, opId) in s.register && keyOf(tenant) !in s.locks && FeedWriting(request.op)
    ensures var begun := Next(keyOf, s, Begin(t, tenant, opId, request));
            var s' := Next(keyOf, Next(keyOf, begun, Lock(t)), Look(t));
            SameCommitted(s, s')
            && s'.answers == s.answers
               + [Answer(Key(tenant, opId), request, Replay(s.register[Key(tenant, opId)], request))]
  {
  }

  /** And a new operation gets through: nothing waits for ever once the lock is free. */
  lemma {:induction false} FreshOperationsApply(
      keyOf: nat -> int, s: Server, t: nat, tenant: nat, opId: nat, request: Request<int>, result: int)
    requires t !in s.txns && Key(tenant, opId) !in s.register && keyOf(tenant) !in s.locks && FeedWriting(request.op)
    requires forall u :: u in s.txns && s.txns[u].phase == Claimed ==> s.txns[u].Register() != Key(tenant, opId)
    ensures var begun := Next(keyOf, s, Begin(t, tenant, opId, request));
            var claimed := Next(keyOf, Next(keyOf, Next(keyOf, begun, Lock(t)), Look(t)), Claim(t));
            var s' := Next(keyOf, claimed, Commit(t, result));
            s'.register == s.register[Key(tenant, opId) := Registered(request, result)]
            && s'.answers == s.answers + [Answer(Key(tenant, opId), request, Applied(result))]
  {
    var begun := Next(keyOf, s, Begin(t, tenant, opId, request));
    var locked := Next(keyOf, begun, Lock(t));
    var looked := Next(keyOf, locked, Look(t));
    assert looked.txns[t].phase == Looked && looked.register == s.register;
    assert !ClaimWaits(looked.txns, t);
    var claimed := Next(keyOf, looked, Claim(t));
    assert claimed.txns[t].phase == Claimed && claimed.answers == s.answers && claimed.register == s.register;
  }

  // ---- the open cycle ----------------------------------------------------------

  /** The rollback-and-continue branch of the cycle insert, which would discard the claimed
      register row, is unreachable; and no two transactions insert for one tenant. */
  lemma {:induction false} CycleConflictIsUnreachable(keyOf: nat -> int, actions: seq<Action>, t: nat, u: nat)
    requires t in Run(keyOf, actions).txns
    ensures var s := Run(keyOf, actions);
            s.txns[t].phase != Discarded
            && (s.txns[t].phase == Claimed && s.txns[t].sawNoCycle ==> s.txns[t].tenant !in s.openCycles)
            && (u in s.txns && s.txns[t].opens && s.txns[u].opens && s.txns[t].tenant == s.txns[u].tenant ==> t == u)
  {
    var s := Run(keyOf, actions);
    RunKeeps(keyOf, actions);
    assert TxnOk(keyOf, s, t, s.txns[t]);
    if u in s.txns && s.txns[t].opens && s.txns[u].opens && s.txns[t].tenant == s.txns[u].tenant {
      assert TxnOk(keyOf, s, u, s.txns[u]);
      OneWriterPerTenant(keyOf, s, t, u);
    }
  }
}
