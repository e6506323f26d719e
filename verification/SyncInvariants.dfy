/** What every interleaving of the sync protocol keeps. */
module SyncInvariants {
  import opened Outcomes
  import opened OpTypes
  import opened Registers
  import Feed
  import opened SyncProtocol

  // ---- the invariant -----------------------------------------------------------

  ghost predicate Holds(keyOf: nat -> int, locks: map<int, nat>, tenant: nat, t: nat) {
    keyOf(tenant) in locks && locks[keyOf(tenant)] == t
  }

  /** A feed-writing transaction that has looked at the register holds its tenant's lock. */
  ghost predicate LockOk(keyOf: nat -> int, locks: map<int, nat>, t: nat, x: Txn) {
    (x.locked ==> Holds(keyOf, locks, x.tenant, t))
    && (FeedWriting(x.request.op) && x.phase != Begun && x.phase != Answered ==> x.locked)
  }

  /** Only a feed-writing transaction that has claimed stages anything. */
  ghost predicate WorkOk(x: Txn) {
    (x.writes != map[] || x.sawNoCycle || x.opens || x.closes ==> x.phase == Claimed && FeedWriting(x.request.op))
    && (x.opens ==> x.sawNoCycle)
    && x.phase != Discarded
  }

  /** Every committed version of the tenant, and every cursor of its clients, is below. */
  ghost predicate AboveAll(rows: map<Key, Row>, clients: map<nat, Client>, tenant: nat, version: nat) {
    (forall k :: k in rows && k.tenant == tenant ==> rows[k].version < version)
    && (forall c :: c in clients && clients[c].tenant == tenant ==> clients[c].cursor < version)
  }

  /** A staged row cannot commit below anything already seen. */
  ghost predicate StagedOk(next: nat, rows: map<Key, Row>, clients: map<nat, Client>, x: Txn) {
    (forall id :: id in x.writes ==>
       x.writes[id].id == id && 0 < x.writes[id].version < next
         && AboveAll(rows, clients, x.tenant, x.writes[id].version))
    && (forall i, j :: i in x.writes && j in x.writes && i != j ==> x.writes[i].version != x.writes[j].version)
  }

  ghost predicate TxnOk(keyOf: nat -> int, s: Server, t: nat, x: Txn) {
    LockOk(keyOf, s.locks, t, x) && WorkOk(x)
    && StagedOk(s.nextVersion, s.rows, s.clients, x)
    && (x.phase == Claimed ==> x.Register() !in s.register)
    && (x.sawNoCycle ==> x.tenant !in s.openCycles)
  }

  ghost predicate TxnsOk(keyOf: nat -> int, s: Server) {
    forall t :: t in s.txns ==> TxnOk(keyOf, s, t, s.txns[t])
  }

  ghost predicate SameClaim(x: Txn, y: Txn) {
    x.phase == Claimed && y.phase == Claimed && x.Register() == y.Register()
  }

  /** At most one transaction holds the claim of an operation id. */
  ghost predicate ClaimsOk(txns: map<nat, Txn>) {
    forall t, u :: t in txns && u in txns && SameClaim(txns[t], txns[u]) ==> t == u
  }

  ghost predicate RowsOk(next: nat, rows: map<Key, Row>, history: set<(nat, Row)>) {
    (forall k :: k in rows ==> rows[k].id == k.id && 0 < rows[k].version < next && (k.tenant, rows[k]) in history)
    && (forall k, j :: k in rows && j in rows && k.tenant == j.tenant && k != j ==> rows[k].version != rows[j].version)
  }

  /** The client holds the server's current copy of every row at or below its cursor, and
      nothing but committed copies at or below it. */
  ghost predicate ClientOk(rows: map<Key, Row>, history: set<(nat, Row)>, x: Client) {
    (forall k :: k in rows && k.tenant == x.tenant && rows[k].version <= x.cursor ==>
       k.id in x.store && x.store[k.id] == rows[k])
    && (forall id :: id in x.store ==>
          x.store[id].id == id && x.store[id].version <= x.cursor && (x.tenant, x.store[id]) in history)
  }

  ghost predicate ClientsOk(s: Server) {
    forall c :: c in s.clients ==>
      s.clients[c].cursor < s.nextVersion && ClientOk(s.rows, s.history, s.clients[c])
  }

  ghost predicate HasApplied(answers: seq<Answer>, n: nat, register: Key, request: Request<int>, result: int) {
    exists i :: 0 <= i < n && i < |answers| && answers[i] == Answer(register, request, Applied(result))
  }

  /** What one answer says, given the register. */
  ghost predicate AnswerOk(register: map<Key, Registered<int, int>>, a: Answer) {
    a.register in register
    && match a.verdict
       case Applied(result) => register[a.register] == Registered(a.request, result)
       case Duplicate(result) => register[a.register] == Registered(a.request, result)
       case KeyReuse => register[a.register].request != a.request
       case Failed(_) => false
  }

  /** The commit an answer repeats came before it. */
  ghost predicate Preceded(answers: seq<Answer>, register: map<Key, Registered<int, int>>, j: nat)
    requires j < |answers|
  {
    var k := answers[j].register;
    k in register && HasApplied(answers, j, k, register[k].request, register[k].result)
  }

  ghost predicate AnswersOk(answers: seq<Answer>, register: map<Key, Registered<int, int>>) {
    (forall i :: 0 <= i < |answers| ==> AnswerOk(register, answers[i]))
    && (forall i, j :: 0 <= i < j < |answers| && answers[i].register == answers[j].register ==>
          !answers[j].verdict.Applied?)
    && (forall k :: k in register ==> HasApplied(answers, |answers|, k, register[k].request, register[k].result))
    && (forall j :: 0 <= j < |answers| && !answers[j].verdict.Applied? ==> Preceded(answers, register, j))
  }

  ghost predicate Inv(keyOf: nat -> int, s: Server) {
    0 < s.nextVersion && TxnsOk(keyOf, s) && ClaimsOk(s.txns)
    && RowsOk(s.nextVersion, s.rows, s.history) && ClientsOk(s) && AnswersOk(s.answers, s.register)
  }

  // ---- steps of one transaction that commit nothing ----------------------------

  /** Everything but the transactions, the locks and the sequence stays; the sequence
      only moves up; transaction `t` is replaced. */
  ghost predicate OnlyTxn(s: Server, s': Server, t: nat) {
    s'.txns.Keys == s.txns.Keys + {t} && (forall u :: u in s.txns && u != t ==> s'.txns[u] == s.txns[u])
    && s' == s.(txns := s'.txns, locks := s'.locks, nextVersion := s'.nextVersion)
    && s.nextVersion <= s'.nextVersion
  }

  lemma {:induction false} OthersStay(keyOf: nat -> int, s: Server, s': Server, t: nat)
    requires Inv(keyOf, s) && OnlyTxn(s, s', t)
    requires forall u :: u in s.txns && u != t && s.txns[u].locked ==>
               (Holds(keyOf, s.locks, s.txns[u].tenant, u) ==> Holds(keyOf, s'.locks, s.txns[u].tenant, u))
    requires TxnOk(keyOf, s', t, s'.txns[t])
    requires forall u :: u in s.txns && u != t ==> !SameClaim(s.txns[u], s'.txns[t])
    ensures Inv(keyOf, s')
  {
    forall u | u in s'.txns ensures TxnOk(keyOf, s', u, s'.txns[u]) {
      if u != t {
        OtherStays(keyOf, s, s', u, s.txns[u]);
      }
    }
    ClaimsStay(s.txns, s'.txns, t);
    ClientsStay(s, s');
  }

  lemma {:induction false} OtherStays(keyOf: nat -> int, s: Server, s': Server, u: nat, x: Txn)
    requires TxnOk(keyOf, s, u, x) && s.nextVersion <= s'.nextVersion
    requires s'.rows == s.rows && s'.clients == s.clients && s'.register == s.register && s'.openCycles == s.openCycles
    requires x.locked && Holds(keyOf, s.locks, x.tenant, u) ==> Holds(keyOf, s'.locks, x.tenant, u)
    ensures TxnOk(keyOf, s', u, x)
  {
  }

  lemma {:induction false} ClaimsStay(txns: map<nat, Txn>, txns': map<nat, Txn>, t: nat)
    requires ClaimsOk(txns) && txns'.Keys == txns.Keys + {t}
    requires forall u :: u in txns && u != t ==> txns'[u] == txns[u]
    requires forall u :: u in txns && u != t ==> !SameClaim(txns[u], txns'[t])
    ensures ClaimsOk(txns')
  {
  }

  lemma {:induction false} ClientsStay(s: Server, s': Server)
    requires ClientsOk(s) && RowsOk(s.nextVersion, s.rows, s.history) && s.nextVersion <= s'.nextVersion
    requires s'.rows == s.rows && s'.history == s.history && s'.clients == s.clients
    ensures ClientsOk(s') && RowsOk(s'.nextVersion, s'.rows, s'.history)
  {
  }

  lemma {:induction false} BeginKeeps(
      keyOf: nat -> int, s: Server, t: nat, tenant: nat, opId: nat, request: Request<int>)
    requires Inv(keyOf, s)
    ensures Inv(keyOf, Next(keyOf, s, Begin(t, tenant, opId, request)))
  {
    if t !in s.txns {
      OthersStay(keyOf, s, Next(keyOf, s, Begin(t, tenant, opId, request)), t);
    }
  }

  lemma {:induction false} LockedIsOk(keyOf: nat -> int, s: Server, t: nat, s': Server)
    requires Inv(keyOf, s) && s' == DoLock(keyOf, s, t) && s' != s
    ensures t in s.txns && t in s'.txns && TxnOk(keyOf, s', t, s'.txns[t])
  {
    assert TxnOk(keyOf, s, t, s.txns[t]);
  }

  lemma {:induction false} LockKeeps(keyOf: nat -> int, s: Server, t: nat)
    requires Inv(keyOf, s)
    ensures Inv(keyOf, DoLock(keyOf, s, t))
  {
    if DoLock(keyOf, s, t) != s {
      LockedIsOk(keyOf, s, t, DoLock(keyOf, s, t));
      OthersStay(keyOf, s, DoLock(keyOf, s, t), t);
    }
  }

  /** A freshly drawn version is above everything. */
  lemma {:induction false} WrittenIsStaged(
      next: nat, rows: map<Key, Row>, history: set<(nat, Row)>, clients: map<nat, Client>, x: Txn, row: nat, data: int)
    requires StagedOk(next, rows, clients, x) && RowsOk(next, rows, history) && 0 < next
    requires forall c :: c in clients ==> clients[c].cursor < next
    ensures StagedOk(next + 1, rows, clients, x.(writes := x.writes[row := Feed.Row(next, row, data)]))
  {
  }

  lemma {:induction false} WriteKeeps(keyOf: nat -> int, s: Server, t: nat, row: nat, data: int)
    requires Inv(keyOf, s)
    ensures Inv(keyOf, DoWrite(s, t, row, data))
  {
    if DoWrite(s, t, row, data) != s {
      WrittenIsOk(keyOf, s, t, row, data, DoWrite(s, t, row, data));
      OthersStay(keyOf, s, DoWrite(s, t, row, data), t);
    }
  }

  lemma {:induction false} WrittenIsOk(keyOf: nat -> int, s: Server, t: nat, row: nat, data: int, s': Server)
    requires Inv(keyOf, s) && s' == DoWrite(s, t, row, data) && s' != s
    ensures t in s.txns && t in s'.txns && TxnOk(keyOf, s', t, s'.txns[t])
  {
    assert TxnOk(keyOf, s, t, s.txns[t]);
    WrittenIsStaged(s.nextVersion, s.rows, s.history, s.clients, s.txns[t], row, data);
  }

  lemma {:induction false} FindCycleKeeps(keyOf: nat -> int, s: Server, t: nat)
    requires Inv(keyOf, s)
    ensures Inv(keyOf, DoFindCycle(s, t))
  {
    if DoFindCycle(s, t) != s {
      assert TxnOk(keyOf, s, t, s.txns[t]);
      OthersStay(keyOf, s, DoFindCycle(s, t), t);
    }
  }

  /** The conflict branch is never taken: the transaction still holds the lock under which
      it saw no open cycle. */
  lemma {:induction false} InsertCycleKeeps(keyOf: nat -> int, s: Server, t: nat)
    requires Inv(keyOf, s)
    ensures Inv(keyOf, DoInsertCycle(s, t))
  {
    if DoInsertCycle(s, t) != s {
      assert TxnOk(keyOf, s, t, s.txns[t]);
      OthersStay(keyOf, s, DoInsertCycle(s, t), t);
    }
  }

  lemma {:induction false} EndCycleKeeps(keyOf: nat -> int, s: Server, t: nat)
    requires Inv(keyOf, s)
    ensures Inv(keyOf, DoEndCycle(s, t))
  {
    if DoEndCycle(s, t) != s {
      assert TxnOk(keyOf, s, t, s.txns[t]);
      OthersStay(keyOf, s, DoEndCycle(s, t), t);
    }
  }

  // ---- answers -----------------------------------------------------------------

  lemma {:induction false} StillApplied(
      answers: seq<Answer>, a: Answer, n: nat, k: Key, request: Request<int>, result: int)
    requires HasApplied(answers, n, k, request, result) && n <= |answers|
    ensures HasApplied(answers + [a], n, k, request, result)
            && HasApplied(answers + [a], |answers| + 1, k, request, result)
  {
    var i :| 0 <= i < n && answers[i] == Answer(k, request, Applied(result));
    assert (answers + [a])[i] == answers[i];
  }

  /** Answering from the register. */
  lemma {:induction false} ReplayAnswers(
      answers: seq<Answer>, register: map<Key, Registered<int, int>>, k: Key, request: Request<int>)
    requires AnswersOk(answers, register) && k in register
    ensures AnswersOk(answers + [Answer(k, request, Replay(register[k], request))], register)
  {
    var a := Answer(k, request, Replay(register[k], request));
    forall j | j in register
      ensures HasApplied(answers + [a], |answers| + 1, j, register[j].request, register[j].result)
      ensures HasApplied(answers + [a], |answers|, j, register[j].request, register[j].result)
    {
      StillApplied(answers, a, |answers|, j, register[j].request, register[j].result);
    }
    EarlierStayPreceded(answers, register, a, register);
  }

  lemma {:induction false} EarlierStayPreceded(
      answers: seq<Answer>, register: map<Key, Registered<int, int>>, a: Answer,
      register': map<Key, Registered<int, int>>)
    requires AnswersOk(answers, register) && forall k :: k in register ==> k in register' && register'[k] == register[k]
    ensures forall j :: 0 <= j < |answers| && !answers[j].verdict.Applied? ==> Preceded(answers + [a], register', j)
  {
    forall j | 0 <= j < |answers| && !answers[j].verdict.Applied? ensures Preceded(answers + [a], register', j) {
      var k := answers[j].register;
      assert Preceded(answers, register, j);
      StillApplied(answers, a, j, k, register[k].request, register[k].result);
    }
  }

  /** Answering a fresh commit. */
  lemma {:induction false} CommitAnswers(
      answers: seq<Answer>, register: map<Key, Registered<int, int>>, k: Key, request: Request<int>, result: int)
    requires AnswersOk(answers, register) && k !in register
    ensures AnswersOk(answers + [Answer(k, request, Applied(result))], register[k := Registered(request, result)])
  {
    var a, register' := Answer(k, request, Applied(result)), register[k := Registered(request, result)];
    forall j | j in register'
      ensures HasApplied(answers + [a], |answers| + 1, j, register'[j].request, register'[j].result)
    {
      if j == k {
        assert (answers + [a])[|answers|] == a;
      } else {
        StillApplied(answers, a, |answers|, j, register[j].request, register[j].result);
      }
    }
    forall i | 0 <= i < |answers| ensures AnswerOk(register', answers[i]) && answers[i].register != k {
      assert AnswerOk(register, answers[i]);
    }
    EarlierStayPreceded(answers, register, a, register');
  }

  lemma {:induction false} AnsweredKeeps(keyOf: nat -> int, s: Server, s': Server)
    requires Inv(keyOf, s) && s' == s.(answers := s'.answers) && AnswersOk(s'.answers, s.register)
    ensures Inv(keyOf, s')
  {
    forall t | t in s'.txns ensures TxnOk(keyOf, s', t, s'.txns[t]) {
      assert TxnOk(keyOf, s, t, s.txns[t]);
    }
  }

  lemma {:induction false} ReplayKeeps(keyOf: nat -> int, s: Server, t: nat)
    requires Inv(keyOf, s) && t in s.txns && s.txns[t].Register() in s.register
    ensures Inv(keyOf, WithAnswer(s, t, Replay(s.register[s.txns[t].Register()], s.txns[t].request)))
  {
    var x := s.txns[t];
    ReplayAnswers(s.answers, s.register, x.Register(), x.request);
    AnsweredKeeps(keyOf, s, WithAnswer(s, t, Replay(s.register[x.Register()], x.request)));
  }

  lemma {:induction false} TxnAnswered(keyOf: nat -> int, s: Server, t: nat, x: Txn)
    requires Inv(keyOf, s) && t in s.txns && x == s.txns[t].(phase := Answered) && s.txns[t].phase == Begun
    ensures Inv(keyOf, WithTxn(s, t, x))
  {
    assert TxnOk(keyOf, s, t, s.txns[t]);
    OthersStay(keyOf, s, WithTxn(s, t, x), t);
  }

  lemma {:induction false} LookReplayKeeps(keyOf: nat -> int, s: Server, t: nat)
    requires Inv(keyOf, s) && t in s.txns && s.txns[t].phase == Begun && s.txns[t].Register() in s.register
    ensures var answered := WithAnswer(s, t, Replay(s.register[s.txns[t].Register()], s.txns[t].request));
            Inv(keyOf, WithTxn(answered, t, s.txns[t].(phase := Answered)))
  {
    ReplayKeeps(keyOf, s, t);
    TxnAnswered(keyOf, WithAnswer(s, t, Replay(s.register[s.txns[t].Register()], s.txns[t].request)), t,
                s.txns[t].(phase := Answered));
  }

  lemma {:induction false} LookFindsNothingKeeps(keyOf: nat -> int, s: Server, t: nat)
    requires Inv(keyOf, s) && t in s.txns && s.txns[t].phase == Begun
    requires FeedWriting(s.txns[t].request.op) ==> s.txns[t].locked
    ensures Inv(keyOf, WithTxn(s, t, s.txns[t].(phase := Looked)))
  {
    assert TxnOk(keyOf, s, t, s.txns[t]);
    OthersStay(keyOf, s, WithTxn(s, t, s.txns[t].(phase := Looked)), t);
  }

  lemma {:induction false} LookKeeps(keyOf: nat -> int, s: Server, t: nat)
    requires Inv(keyOf, s)
    ensures Inv(keyOf, DoLook(s, t))
  {
    if t in s.txns && s.txns[t].phase == Begun && (FeedWriting(s.txns[t].request.op) ==> s.txns[t].locked) {
      if s.txns[t].Register() in s.register {
        LookReplayKeeps(keyOf, s, t);
      } else {
        LookFindsNothingKeeps(keyOf, s, t);
      }
    }
  }

  // ---- endings -----------------------------------------------------------------

  lemma {:induction false} EndedKeeps(keyOf: nat -> int, s: Server, t: nat)
    requires Inv(keyOf, s)
    ensures Inv(keyOf, Ended(s, t))
  {
    forall u | u in s.txns && u != t ensures TxnOk(keyOf, Ended(s, t), u, s.txns[u]) {
      assert TxnOk(keyOf, s, u, s.txns[u]);
    }
  }

  lemma {:induction false} FreshClaim(txns: map<nat, Txn>, t: nat, claimed: Txn)
    requires t in txns && !ClaimWaits(txns, t) && claimed == txns[t].(phase := Claimed)
    ensures forall u :: u in txns && u != t ==> !SameClaim(txns[u], claimed)
  {
  }

  lemma {:induction false} ClaimKeeps(keyOf: nat -> int, s: Server, t: nat)
    requires Inv(keyOf, s)
    ensures Inv(keyOf, DoClaim(s, t))
  {
    if t in s.txns && s.txns[t].phase == Looked && !ClaimWaits(s.txns, t) {
      var x := s.txns[t];
      if x.Register() in s.register {
        ReplayKeeps(keyOf, s, t);
        EndedKeeps(keyOf, WithAnswer(s, t, Replay(s.register[x.Register()], x.request)), t);
      } else {
        ClaimedKeeps(keyOf, s, t, WithTxn(s, t, x.(phase := Claimed)));
      }
    }
  }

  lemma {:induction false} ClaimedKeeps(keyOf: nat -> int, s: Server, t: nat, s': Server)
    requires Inv(keyOf, s) && t in s.txns && s.txns[t].phase == Looked && !ClaimWaits(s.txns, t)
    requires s.txns[t].Register() !in s.register && s' == WithTxn(s, t, s.txns[t].(phase := Claimed))
    ensures Inv(keyOf, s')
  {
    ClaimedTxnOk(keyOf, s, t, s');
    FreshClaim(s.txns, t, s.txns[t].(phase := Claimed));
    OthersStay(keyOf, s, s', t);
  }

  lemma {:induction false} ClaimedTxnOk(keyOf: nat -> int, s: Server, t: nat, s': Server)
    requires t in s.txns && TxnOk(keyOf, s, t, s.txns[t]) && s.txns[t].phase == Looked
    requires s.txns[t].Register() !in s.register && s' == WithTxn(s, t, s.txns[t].(phase := Claimed))
    ensures TxnOk(keyOf, s', t, s'.txns[t])
  {
  }

  // ---- commit ------------------------------------------------------------------

  /** Two lock holders of one tenant are one transaction. */
  lemma {:induction false} OneWriterPerTenant(keyOf: nat -> int, s: Server, t: nat, u: nat)
    requires TxnsOk(keyOf, s) && t in s.txns && u in s.txns && s.txns[t].tenant == s.txns[u].tenant
    requires s.txns[t].locked && s.txns[u].locked
    ensures t == u
  {
    assert TxnOk(keyOf, s, t, s.txns[t]) && TxnOk(keyOf, s, u, s.txns[u]);
  }

  lemma {:induction false} CommittedRowsOk(keyOf: nat -> int, s: Server, t: nat)
    requires Inv(keyOf, s) && t in s.txns && s.txns[t].phase == Claimed
    ensures var x := s.txns[t];
            RowsOk(s.nextVersion, RowsAfter(s.rows, x.tenant, x.writes),
                   s.history + (set id | id in x.writes :: (x.tenant, x.writes[id])))
  {
    var x := s.txns[t];
    assert TxnOk(keyOf, s, t, x);
  }

  /** Every row the commit changes lies above the client's cursor. */
  lemma {:induction false} ClientStaysOk(
      next: nat, rows: map<Key, Row>, history: set<(nat, Row)>, clients: map<nat, Client>, x: Txn, c: nat)
    requires c in clients && ClientOk(rows, history, clients[c]) && StagedOk(next, rows, clients, x)
    ensures ClientOk(RowsAfter(rows, x.tenant, x.writes),
                     history + (set id | id in x.writes :: (x.tenant, x.writes[id])), clients[c])
  {
  }

  /** Another transaction of the same tenant stages nothing while `t` commits rows or
      cycles: both would hold the lock. */
  lemma {:induction false} NobodyElseWrites(keyOf: nat -> int, s: Server, t: nat, u: nat)
    requires TxnsOk(keyOf, s) && t in s.txns && u in s.txns && t != u && s.txns[t].tenant == s.txns[u].tenant
    requires s.txns[t].phase == Claimed
    ensures (s.txns[t].writes == map[] && !s.txns[t].opens && !s.txns[t].closes)
         || (s.txns[u].writes == map[] && !s.txns[u].sawNoCycle && !s.txns[u].opens)
  {
    var x, y := s.txns[t], s.txns[u];
    assert TxnOk(keyOf, s, t, x) && TxnOk(keyOf, s, u, y);
    if x.locked && y.locked {
      OneWriterPerTenant(keyOf, s, t, u);
    }
  }

  lemma {:induction false} OtherTxnStaysOk(keyOf: nat -> int, s: Server, t: nat, result: int, u: nat)
    requires Inv(keyOf, s) && t in s.txns && s.txns[t].phase == Claimed && u in s.txns && u != t
    ensures TxnOk(keyOf, DoCommit(s, t, result), u, s.txns[u])
  {
    var x, y, s' := s.txns[t], s.txns[u], DoCommit(s, t, result);
    assert TxnOk(keyOf, s, u, y);
    assert y.phase == Claimed ==> !SameClaim(x, y);
    if x.tenant == y.tenant {
      NobodyElseWrites(keyOf, s, t, u);
    }
    StagedStays(s.nextVersion, s.rows, s.clients, x, y);
    assert LockOk(keyOf, s'.locks, u, y);
  }

  /** Rows committed by another tenant, or by nobody else's work, leave what is staged above. */
  lemma {:induction false} StagedStays(next: nat, rows: map<Key, Row>, clients: map<nat, Client>, x: Txn, y: Txn)
    requires StagedOk(next, rows, clients, y)
    requires x.tenant == y.tenant ==> x.writes == map[] || y.writes == map[]
    ensures StagedOk(next, RowsAfter(rows, x.tenant, x.writes), clients, y)
  {
  }

  lemma {:induction false} CommitKeeps(keyOf: nat -> int, s: Server, t: nat, result: int)
    requires Inv(keyOf, s)
    ensures Inv(keyOf, DoCommit(s, t, result))
  {
    if t in s.txns && s.txns[t].phase == Claimed {
      var x, s' := s.txns[t], DoCommit(s, t, result);
      CommittedRowsOk(keyOf, s, t);
      assert TxnOk(keyOf, s, t, x);
      CommitAnswers(s.answers, s.register, x.Register(), x.request, result);
      forall c | c in s.clients ensures ClientOk(s'.rows, s'.history, s.clients[c]) {
        ClientStaysOk(s.nextVersion, s.rows, s.history, s.clients, x, c);
      }
      forall u | u in s'.txns ensures TxnOk(keyOf, s', u, s'.txns[u]) {
        OtherTxnStaysOk(keyOf, s, t, result, u);
      }
    }
  }

  // ---- clients -----------------------------------------------------------------

  lemma {:induction false} StoreHolds(store: map<nat, Row>, page: seq<Row>, id: nat)
    requires Feed.Ascending(page)
    ensures id in Store(store, page) <==> id in store || exists i :: 0 <= i < |page| && page[i].id == id
    ensures id in Store(store, page) ==>
              (id in store && Store(store, page)[id] == store[id] && forall i :: 0 <= i < |page| ==> page[i].id != id)
              || (exists i :: 0 <= i < |page| && page[i].id == id && Store(store, page)[id] == page[i])
  {
    if page != [] {
      var last := |page| - 1;
      StoreHolds(store, page[..last], id);
      assert forall i :: 0 <= i < last ==> page[..last][i] == page[i];
    }
  }

  lemma {:induction false} PulledClientOk(rows: map<Key, Row>, history: set<(nat, Row)>, x: Client, page: seq<Row>)
    requires ClientOk(rows, history, x) && IsPageOf(rows, x, page)
    requires forall k :: k in rows ==> rows[k].id == k.id && (k.tenant, rows[k]) in history
    ensures ClientOk(rows, history, Client(x.tenant, Feed.CursorAfter(page, x.cursor), Store(x.store, page)))
  {
    var cursor, store := Feed.CursorAfter(page, x.cursor), Store(x.store, page);
    CursorBoundsPage(page, x.cursor);
    forall k | k in rows && k.tenant == x.tenant && rows[k].version <= cursor
      ensures k.id in store && store[k.id] == rows[k]
    {
      PulledRowIsCurrent(rows, history, x, page, k);
    }
    forall id | id in store
      ensures store[id].id == id && store[id].version <= cursor && (x.tenant, store[id]) in history
    {
      StoreHolds(x.store, page, id);
      assert forall y :: y in page ==> IsRowOf(rows, x.tenant, y);
    }
  }

  lemma {:induction false} CursorBoundsPage(page: seq<Row>, since: nat)
    requires Feed.Ascending(page) && forall y :: y in page ==> since < y.version
    ensures since <= Feed.CursorAfter(page, since)
    ensures forall i :: 0 <= i < |page| ==> page[i].version <= Feed.CursorAfter(page, since)
  {
    if page != [] {
      assert page[|page| - 1] in page;
    }
  }

  lemma {:induction false} PulledRowIsCurrent(
      rows: map<Key, Row>, history: set<(nat, Row)>, x: Client, page: seq<Row>, k: Key)
    requires ClientOk(rows, history, x) && IsPageOf(rows, x, page) && k in rows && k.tenant == x.tenant
    requires rows[k].id == k.id && rows[k].version <= Feed.CursorAfter(page, x.cursor)
    ensures k.id in Store(x.store, page) && Store(x.store, page)[k.id] == rows[k]
  {
    StoreHolds(x.store, page, k.id);
    assert Key(x.tenant, k.id) == k;
    forall i | 0 <= i < |page| && page[i].id == k.id ensures page[i] == rows[k] && x.cursor < rows[k].version {
      assert page[i] in page;
    }
    if x.cursor < rows[k].version {
      assert IsRowOf(rows, x.tenant, rows[k]);
      assert rows[k] in page;
    }
  }

  lemma {:induction false} PullKeeps(keyOf: nat -> int, s: Server, c: nat, page: seq<Row>)
    requires Inv(keyOf, s)
    ensures Inv(keyOf, DoPull(s, c, page))
  {
    if c in s.clients && IsPageOf(s.rows, s.clients[c], page) {
      var s', x := DoPull(s, c, page), s.clients[c];
      PulledClientOk(s.rows, s.history, x, page);
      CursorIsCommitted(s.rows, x, page);
      forall t | t in s.txns ensures TxnOk(keyOf, s', t, s.txns[t]) {
        assert TxnOk(keyOf, s, t, s.txns[t]);
        StagedAboveCursor(s.nextVersion, s.rows, s.clients, s.txns[t], c, s'.clients[c]);
      }
    }
  }

  lemma {:induction false} StagedAboveCursor(
      next: nat, rows: map<Key, Row>, clients: map<nat, Client>, y: Txn, c: nat, pulled: Client)
    requires StagedOk(next, rows, clients, y) && c in clients && pulled.tenant == clients[c].tenant
    requires pulled.cursor == clients[c].cursor
             || exists k :: k in rows && k.tenant == pulled.tenant && rows[k].version == pulled.cursor
    ensures StagedOk(next, rows, clients[c := pulled], y)
  {
  }

  /** The cursor only ever stops on a committed version, so everything staged is above. */
  lemma {:induction false} CursorIsCommitted(rows: map<Key, Row>, x: Client, page: seq<Row>)
    requires IsPageOf(rows, x, page)
    ensures Feed.CursorAfter(page, x.cursor) == x.cursor
            || exists k :: k in rows && k.tenant == x.tenant && rows[k].version == Feed.CursorAfter(page, x.cursor)
  {
    if page != [] {
      var last := page[|page| - 1];
      assert last in page;
      assert IsRowOf(rows, x.tenant, last);
      assert Key(x.tenant, last.id) in rows;
    }
  }

  lemma {:induction false} JoinKeeps(keyOf: nat -> int, s: Server, c: nat, tenant: nat)
    requires Inv(keyOf, s)
    ensures Inv(keyOf, Next(keyOf, s, Join(c, tenant)))
  {
    if c !in s.clients {
      var joined := s.(clients := s.clients[c := Client(tenant, 0, map[])]);
      forall t | t in s.txns ensures TxnOk(keyOf, joined, t, s.txns[t]) {
        assert TxnOk(keyOf, s, t, s.txns[t]);
      }
      JoinedClientsOk(s, joined, c, tenant);
    }
  }

  lemma {:induction false} JoinedClientsOk(s: Server, joined: Server, c: nat, tenant: nat)
    requires ClientsOk(s) && 0 < s.nextVersion && RowsOk(s.nextVersion, s.rows, s.history)
    requires joined == s.(clients := s.clients[c := Client(tenant, 0, map[])])
    ensures ClientsOk(joined)
  {
  }

  lemma {:induction false} BurnKeeps(keyOf: nat -> int, s: Server)
    requires Inv(keyOf, s)
    ensures Inv(keyOf, s.(nextVersion := s.nextVersion + 1))
  {
    forall t | t in s.txns ensures TxnOk(keyOf, s.(nextVersion := s.nextVersion + 1), t, s.txns[t]) {
      assert TxnOk(keyOf, s, t, s.txns[t]);
    }
  }

  // ---- every step, every run ---------------------------------------------------

  predicate BeforeTheEffect(a: Action) {
    a.Begin? || a.Lock? || a.Look? || a.Claim?
  }

  lemma {:induction false} ClaimingKeeps(keyOf: nat -> int, s: Server, a: Action)
    requires Inv(keyOf, s) && BeforeTheEffect(a)
    ensures Inv(keyOf, Next(keyOf, s, a))
  {
    match a
    case Begin(t, tenant, opId, request) => BeginKeeps(keyOf, s, t, tenant, opId, request);
    case Lock(t) => LockKeeps(keyOf, s, t);
    case Look(t) => LookKeeps(keyOf, s, t);
    case Claim(t) => ClaimKeeps(keyOf, s, t);
  }

  lemma {:induction false} WorkKeeps(keyOf: nat -> int, s: Server, a: Action)
    requires Inv(keyOf, s) && (a.Write? || a.FindCycle? || a.InsertCycle? || a.EndCycle?)
    ensures Inv(keyOf, Next(keyOf, s, a))
  {
    match a
    case Write(t, row, data) => WriteKeeps(keyOf, s, t, row, data);
    case FindCycle(t) => FindCycleKeeps(keyOf, s, t);
    case InsertCycle(t) => InsertCycleKeeps(keyOf, s, t);
    case EndCycle(t) => EndCycleKeeps(keyOf, s, t);
  }

  lemma {:induction false} NextKeeps(keyOf: nat -> int, s: Server, a: Action)
    requires Inv(keyOf, s)
    ensures Inv(keyOf, Next(keyOf, s, a))
  {
    match a
    case Write(t, row, data) => WorkKeeps(keyOf, s, a);
    case FindCycle(t) => WorkKeeps(keyOf, s, a);
    case InsertCycle(t) => WorkKeeps(keyOf, s, a);
    case EndCycle(t) => WorkKeeps(keyOf, s, a);
    case Commit(t, result) => CommitKeeps(keyOf, s, t, result);
    case Rollback(t) => EndedKeeps(keyOf, s, t);
    case Burn => BurnKeeps(keyOf, s);
    case Join(c, tenant) => JoinKeeps(keyOf, s, c, tenant);
    case Pull(c, page) => PullKeeps(keyOf, s, c, page);
    case _ => ClaimingKeeps(keyOf, s, a);
  }

  lemma {:induction false} RunKeeps(keyOf: nat -> int, actions: seq<Action>)
    ensures Inv(keyOf, Run(keyOf, actions))
  {
    if actions != [] {
      RunKeeps(keyOf, actions[..|actions| - 1]);
      NextKeeps(keyOf, Run(keyOf, actions[..|actions| - 1]), actions[|actions| - 1]);
    }
  }
}
