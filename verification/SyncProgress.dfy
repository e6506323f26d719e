/** What nobody waits for in vain: a lock is held by a transaction in flight and by nobody
    else, and a client's pull brings it what is newer. */
module SyncProgress {
  import opened Outcomes
  import opened OpTypes
  import opened Registers
  import Feed
  import opened SyncProtocol
  import opened SyncInvariants
  import opened SyncTheorems

  // ---- locks -------------------------------------------------------------------

  /** Every lock is that of a transaction in flight, for its own tenant. */
  ghost predicate LocksOk(keyOf: nat -> int, locks: map<int, nat>, txns: map<nat, Txn>) {
    forall k :: k in locks ==>
      locks[k] in txns && txns[locks[k]].locked && keyOf(txns[locks[k]].tenant) == k
  }

  /** Transaction `t` alone moves, and keeps its tenant and its lock; or it leaves with it. */
  ghost predicate MovesOnly(s: Server, s': Server, t: nat) {
    (forall u :: u in s.txns && u != t ==> u in s'.txns && s'.txns[u] == s.txns[u])
    && (s'.locks == Released(s.locks, t)
        || (s'.locks == s.locks
            && (t in s.txns ==>
                  t in s'.txns && s'.txns[t].tenant == s.txns[t].tenant && (s.txns[t].locked ==> s'.txns[t].locked))))
  }

  lemma MovingKeepsLocks(keyOf: nat -> int, s: Server, s': Server, t: nat)
    requires LocksOk(keyOf, s.locks, s.txns) && MovesOnly(s, s', t)
    ensures LocksOk(keyOf, s'.locks, s'.txns)
  {
  }

  lemma LockTakesOwn(keyOf: nat -> int, s: Server, t: nat, s': Server)
    requires LocksOk(keyOf, s.locks, s.txns) && s' == DoLock(keyOf, s, t)
    ensures LocksOk(keyOf, s'.locks, s'.txns)
  {
  }

  lemma LookMoves(s: Server, t: nat, s': Server)
    requires s' == DoLook(s, t)
    ensures MovesOnly(s, s', t)
  {
  }

  lemma ClaimMoves(s: Server, t: nat, s': Server)
    requires s' == DoClaim(s, t)
    ensures MovesOnly(s, s', t)
  {
  }

  lemma WriteMoves(s: Server, t: nat, row: nat, data: int, s': Server)
    requires s' == DoWrite(s, t, row, data)
    ensures MovesOnly(s, s', t)
  {
  }

  lemma FindMoves(s: Server, t: nat, s': Server)
    requires s' == DoFindCycle(s, t)
    ensures MovesOnly(s, s', t)
  {
  }

  lemma InsertMoves(s: Server, t: nat, s': Server)
    requires s' == DoInsertCycle(s, t) && (t in s.txns && s.txns[t].sawNoCycle ==> s.txns[t].tenant !in s.openCycles)
    ensures MovesOnly(s, s', t)
  {
  }

  lemma EndMoves(s: Server, t: nat, s': Server)
    requires s' == DoEndCycle(s, t)
    ensures MovesOnly(s, s', t)
  {
  }

  lemma CommitMoves(s: Server, t: nat, result: int, s': Server)
    requires s' == DoCommit(s, t, result)
    ensures MovesOnly(s, s', t)
  {
  }

  lemma {:induction false} NextKeepsLocks(keyOf: nat -> int, s: Server, a: Action, s': Server)
    requires Inv(keyOf, s) && LocksOk(keyOf, s.locks, s.txns) && s' == Next(keyOf, s, a)
    ensures LocksOk(keyOf, s'.locks, s'.txns)
  {
    match a
    case Lock(t) => LockTakesOwn(keyOf, s, t, s');
    case Look(t) => LookMoves(s, t, s'); MovingKeepsLocks(keyOf, s, s', t);
    case Claim(t) => ClaimMoves(s, t, s'); MovingKeepsLocks(keyOf, s, s', t);
    case Write(t, row, data) => WriteMoves(s, t, row, data, s'); MovingKeepsLocks(keyOf, s, s', t);
    case FindCycle(t) => FindMoves(s, t, s'); MovingKeepsLocks(keyOf, s, s', t);
    case InsertCycle(t) =>
      assert t in s.txns ==> TxnOk(keyOf, s, t, s.txns[t]);
      InsertMoves(s, t, s');
      MovingKeepsLocks(keyOf, s, s', t);
    case EndCycle(t) => EndMoves(s, t, s'); MovingKeepsLocks(keyOf, s, s', t);
    case Commit(t, result) => CommitMoves(s, t, result, s'); MovingKeepsLocks(keyOf, s, s', t);
    case _ =>
  }

  /** Over every run: whoever waits for a lock waits for a transaction in flight that holds
      it for a tenant of the same key; once that has committed or rolled back it is free. */
  lemma {:induction false} LocksAreHeld(keyOf: nat -> int, actions: seq<Action>)
    ensures var s := Run(keyOf, actions); LocksOk(keyOf, s.locks, s.txns)
  {
    if actions != [] {
      var rest := actions[..|actions| - 1];
      LocksAreHeld(keyOf, rest);
      RunKeeps(keyOf, rest);
      NextKeepsLocks(keyOf, Run(keyOf, rest), actions[|actions| - 1], Run(keyOf, actions));
    }
  }

  // ---- clients ------------------------------------------------------------------

  /** A new client starts with nothing at cursor zero, for its tenant. */
  lemma {:induction false} JoinsWithNothing(keyOf: nat -> int, s: Server, c: nat, tenant: nat)
    requires c !in s.clients
    ensures var s' := Next(keyOf, s, Join(c, tenant));
            s'.clients.Keys == s.clients.Keys + {c} && s'.clients[c] == Client(tenant, 0, map[])
            && forall x :: x in s.clients ==> s'.clients[x] == s.clients[x]
  {
  }

  // ---- pulls -------------------------------------------------------------------

  /** The client holds every committed row of its tenant. */
  ghost predicate HasEverything(rows: map<Key, Row>, x: Client) {
    forall k :: k in rows && k.tenant == x.tenant ==> k.id in x.store && x.store[k.id] == rows[k]
  }

  /** Pulling the route's page moves the cursor past everything on it, unless there was
      nothing newer; and a page with room for everything newer brings everything. */
  lemma {:induction false} PullsBringWhatIsNewer(
      keyOf: nat -> int, actions: seq<Action>, c: nat, list: seq<Row>, limit: nat, page: seq<Row>)
    requires var s := Run(keyOf, actions);
             c in s.clients && Lists(s.rows, s.clients[c].tenant, list) && 1 <= limit
             && page == Feed.PageOf(list, s.clients[c].cursor, limit)
    ensures var s := Run(keyOf, actions);
            var s' := Next(keyOf, s, Pull(c, page));
            c in s'.clients && s'.rows == s.rows && s'.clients[c].tenant == s.clients[c].tenant
            && (s.clients[c].cursor < s'.clients[c].cursor || HasEverything(s.rows, s.clients[c]))
            && (|Feed.Delta(list, s.clients[c].cursor)| <= limit ==> HasEverything(s'.rows, s'.clients[c]))
  {
    var s := Run(keyOf, actions);
    RunKeeps(keyOf, actions);
    RoutePagesAreComplete(keyOf, actions, c, list, limit);
    PullKeeps(keyOf, s, c, page);
    var s' := DoPull(s, c, page);
    PulledPast(s.nextVersion, s.rows, s.history, s.clients[c], list, limit, page, s'.clients[c]);
  }

  lemma {:induction false} PulledPast(
      next: nat, rows: map<Key, Row>, history: set<(nat, Row)>, x: Client, list: seq<Row>, limit: nat,
      page: seq<Row>, y: Client)
    requires RowsOk(next, rows, history) && Lists(rows, x.tenant, list) && 1 <= limit
    requires page == Feed.PageOf(list, x.cursor, limit) && ClientOk(rows, history, y) && y.tenant == x.tenant
    requires y.cursor == Feed.CursorAfter(page, x.cursor)
    ensures page != [] ==> x.cursor < y.cursor
    ensures |Feed.Delta(list, x.cursor)| <= limit ==> HasEverything(rows, y)
  {
    ListedVersionsAreDistinct(next, rows, history, x.tenant, list);
    Feed.PageIsPrefix(list, x.cursor, limit);
    if |Feed.Delta(list, x.cursor)| <= limit {
      forall k | k in rows && k.tenant == x.tenant ensures rows[k].version <= y.cursor {
        assert Key(x.tenant, k.id) == k && IsRowOf(rows, x.tenant, rows[k]);
        WholeDelta(list, x.cursor, page, rows[k]);
      }
    }
  }

  lemma {:induction false} WholeDelta(list: seq<Row>, since: nat, page: seq<Row>, x: Row)
    requires page == Feed.Delta(list, since) && Feed.Ascending(page) && x in list
    ensures x.version <= Feed.CursorAfter(page, since)
  {
    CursorBoundsPage(page, since);
    if since < x.version {
      assert x in page;
    }
  }
}
