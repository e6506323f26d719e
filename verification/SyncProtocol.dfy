/** The sync protocol as a step machine over every interleaving: transactions of several
    tenants take the tenant lock, look up and claim the register, draw versions from one
    non-transactional sequence, open and close cycles, and commit or roll back; clients
    pull pages. An action that is not enabled (blocked or out of order) changes nothing. */
module SyncProtocol {
  import opened Outcomes
  import opened OpTypes
  import opened Registers
  import Feed

  type Row = Feed.Row<int>

  datatype Phase = Begun | Looked | Claimed | Answered | Discarded

  datatype Key = Key(tenant: nat, id: nat)

  datatype Txn = Txn(
    tenant: nat,
    opId: nat,
    request: Request<int>,
    phase: Phase,
    locked: bool,
    writes: map<nat, Row>,
    sawNoCycle: bool,
    opens: bool,
    closes: bool)
  {
    function Register(): Key {
      Key(tenant, opId)
    }
  }

  datatype Answer = Answer(register: Key, request: Request<int>, verdict: Verdict<int, ()>)

  datatype Client = Client(tenant: nat, cursor: nat, store: map<nat, Row>)

  datatype Server = Server(
    nextVersion: nat,
    locks: map<int, nat>,           // lock key -> transaction
    txns: map<nat, Txn>,            // in flight
    register: map<Key, Registered<int, int>>, // committed
    rows: map<Key, Row>,            // committed feed rows, by (tenant, row id)
    history: set<(nat, Row)>,       // every row copy ever committed, by tenant
    openCycles: set<nat>,           // tenants with a committed OPEN cycle
    answers: seq<Answer>,
    clients: map<nat, Client>)

  datatype Action =
    | Begin(txn: nat, tenant: nat, opId: nat, request: Request<int>)
    | Lock(txn: nat)
    | Look(txn: nat)
    | Claim(txn: nat)
    | Write(txn: nat, row: nat, data: int)
    | FindCycle(txn: nat)
    | InsertCycle(txn: nat)
    | EndCycle(txn: nat)
    | Commit(txn: nat, result: int)
    | Rollback(txn: nat)
    | Burn
    | Join(client: nat, tenant: nat)
    | Pull(client: nat, page: seq<Row>)

  // ---- steps -------------------------------------------------------------------

  function WithTxn(s: Server, t: nat, x: Txn): Server {
    s.(txns := s.txns[t := x])
  }

  /** Commit and rollback both release the transaction's lock. */
  function Released(locks: map<int, nat>, t: nat): map<int, nat> {
    map k | k in locks && locks[k] != t :: locks[k]
  }

  function Ended(s: Server, t: nat): Server {
    s.(txns := s.txns - {t}, locks := Released(s.locks, t))
  }

  function WithAnswer(s: Server, t: nat, verdict: Verdict<int, ()>): Server
    requires t in s.txns
  {
    s.(answers := s.answers + [Answer(s.txns[t].Register(), s.txns[t].request, verdict)])
  }

  function DoLock(keyOf: nat -> int, s: Server, t: nat): Server {
    if t in s.txns && s.txns[t].phase == Begun && FeedWriting(s.txns[t].request.op) && !s.txns[t].locked
       && keyOf(s.txns[t].tenant) !in s.locks
    then WithTxn(s, t, s.txns[t].(locked := true)).(locks := s.locks[keyOf(s.txns[t].tenant) := t])
    else s
  }

  function DoLook(s: Server, t: nat): Server {
    if t in s.txns && s.txns[t].phase == Begun && (FeedWriting(s.txns[t].request.op) ==> s.txns[t].locked) then
      var x := s.txns[t];
      if x.Register() in s.register
      then WithTxn(WithAnswer(s, t, Replay(s.register[x.Register()], x.request)), t, x.(phase := Answered))
      else WithTxn(s, t, x.(phase := Looked))
    else s
  }

  /** The register's unique index: a claim waits for another claim of the same key. */
  predicate ClaimWaits(txns: map<nat, Txn>, t: nat)
    requires t in txns
  {
    exists u :: u in txns && u != t && txns[u].phase == Claimed && txns[u].Register() == txns[t].Register()
  }

  function DoClaim(s: Server, t: nat): Server {
    if t in s.txns && s.txns[t].phase == Looked && !ClaimWaits(s.txns, t) then
      var x := s.txns[t];
      if x.Register() in s.register
      then
        Ended(WithAnswer(s, t, Replay(s.register[x.Register()], x.request)), t)  // rolled back, then answered
      else WithTxn(s, t, x.(phase := Claimed))
    else s
  }

  /** Draw a version and stage a feed row. */
  function DoWrite(s: Server, t: nat, row: nat, data: int): Server {
    if t in s.txns && s.txns[t].phase == Claimed && FeedWriting(s.txns[t].request.op) then
      var x := s.txns[t];
      WithTxn(s, t, x.(writes := x.writes[row := Feed.Row(s.nextVersion, row, data)]))
        .(nextVersion := s.nextVersion + 1)
    else s
  }

  function DoFindCycle(s: Server, t: nat): Server {
    if t in s.txns && s.txns[t].phase == Claimed && Posts(s.txns[t].request.op) && s.txns[t].tenant !in s.openCycles
    then WithTxn(s, t, s.txns[t].(sawNoCycle := true))
    else s
  }

  /** The partial unique index: an insert waits for another transaction's insert. */
  predicate InsertWaits(txns: map<nat, Txn>, t: nat)
    requires t in txns
  {
    exists u :: u in txns && u != t && txns[u].opens && txns[u].tenant == txns[t].tenant
  }

  /** Inserting the open cycle. When another transaction has committed one meanwhile, the
      code rolls back, which discards the claimed register row, and carries on. */
  function DoInsertCycle(s: Server, t: nat): Server {
    if t in s.txns && s.txns[t].phase == Claimed && s.txns[t].sawNoCycle && !InsertWaits(s.txns, t) then
      if s.txns[t].tenant in s.openCycles
      then
        WithTxn(s, t, s.txns[t].(phase := Discarded, writes := map[], locked := false))
          .(locks := Released(s.locks, t))
      else WithTxn(s, t, s.txns[t].(opens := true))
    else s
  }

  function DoEndCycle(s: Server, t: nat): Server {
    if t in s.txns && s.txns[t].phase == Claimed && s.txns[t].request.op == CycleClose
       && s.txns[t].tenant in s.openCycles
    then WithTxn(s, t, s.txns[t].(closes := true))
    else s
  }

  function RowsAfter(rows: map<Key, Row>, tenant: nat, writes: map<nat, Row>): (r: map<Key, Row>)
    ensures forall k :: k in r <==> k in rows || (k.tenant == tenant && k.id in writes)
    ensures forall k :: k in r ==> r[k] == if k.tenant == tenant && k.id in writes then writes[k.id] else rows[k]
  {
    map k | k in rows.Keys + (set id | id in writes :: Key(tenant, id)) ::
      if k.tenant == tenant && k.id in writes then writes[k.id] else rows[k]
  }

  /** Effect and register commit together. */
  function DoCommit(s: Server, t: nat, result: int): Server {
    if t in s.txns && s.txns[t].phase == Claimed then
      var x := s.txns[t];
      Ended(WithAnswer(s, t, Applied(result)), t).(
        register := s.register[x.Register() := Registered(x.request, result)],
        rows := RowsAfter(s.rows, x.tenant, x.writes),
        history := s.history + (set id | id in x.writes :: (x.tenant, x.writes[id])),
        openCycles := if x.closes then s.openCycles - {x.tenant}
                      else if x.opens then s.openCycles + {x.tenant}
                      else s.openCycles)
    else s
  }

  ghost predicate IsRowOf(rows: map<Key, Row>, tenant: nat, row: Row) {
    Key(tenant, row.id) in rows && rows[Key(tenant, row.id)] == row
  }

  /** One page read in a single snapshot: ascending, newer than the cursor, and complete
      up to its own cursor. */
  ghost predicate IsPageOf(rows: map<Key, Row>, client: Client, page: seq<Row>) {
    Feed.Ascending(page)
    && (forall x :: x in page ==> IsRowOf(rows, client.tenant, x) && client.cursor < x.version)
    && var cursor := Feed.CursorAfter(page, client.cursor);
       (forall x :: IsRowOf(rows, client.tenant, x) && client.cursor < x.version <= cursor ==> x in page)
  }

  /** Apply rows by identity. */
  function Store(store: map<nat, Row>, page: seq<Row>): map<nat, Row> {
    if page == [] then store else Store(store, page[..|page| - 1])[page[|page| - 1].id := page[|page| - 1]]
  }

  ghost function DoPull(s: Server, c: nat, page: seq<Row>): Server {
    if c in s.clients && IsPageOf(s.rows, s.clients[c], page) then
      var x := s.clients[c];
      s.(clients := s.clients[c := Client(x.tenant, Feed.CursorAfter(page, x.cursor), Store(x.store, page))])
    else s
  }

  ghost function Next(keyOf: nat -> int, s: Server, a: Action): Server {
    match a
    case Begin(t, tenant, opId, request) =>
      if t in s.txns then s
      else WithTxn(s, t, Txn(tenant, opId, request, Begun, false, map[], false, false, false))
    case Lock(t) => DoLock(keyOf, s, t)
    case Look(t) => DoLook(s, t)
    case Claim(t) => DoClaim(s, t)
    case Write(t, row, data) => DoWrite(s, t, row, data)
    case FindCycle(t) => DoFindCycle(s, t)
    case InsertCycle(t) => DoInsertCycle(s, t)
    case EndCycle(t) => DoEndCycle(s, t)
    case Commit(t, result) => DoCommit(s, t, result)
    case Rollback(t) => Ended(s, t)
    case Burn => s.(nextVersion := s.nextVersion + 1)
    case Join(c, tenant) => if c in s.clients then s else s.(clients := s.clients[c := Client(tenant, 0, map[])])
    case Pull(c, page) => DoPull(s, c, page)
  }

  function Start(): Server {
    Server(1, map[], map[], map[], map[], {}, {}, [], map[])
  }

  ghost function Run(keyOf: nat -> int, actions: seq<Action>): Server {
    if actions == [] then Start() else Next(keyOf, Run(keyOf, actions[..|actions| - 1]), actions[|actions| - 1])
  }
}
