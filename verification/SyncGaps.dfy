/** When a page whose tables are read one after the other has a gap: stated of the reads alone
    for every limit at once, for one limit, and of the order of commits and reads. */
module SyncGaps {
  import opened Outcomes
  import opened OpTypes
  import opened Registers
  import Feed
  import opened SyncProtocol
  import opened SyncInvariants
  import opened SyncTheorems
  import opened SyncHistory
  import opened SyncSnapshots

  // ---- counting the rows below a version ---------------------------------------

  function CountBelow(s: seq<Row>, version: nat): nat {
    if s == [] then 0
    else CountBelow(s[..|s| - 1], version) + if s[|s| - 1].version < version then 1 else 0
  }

  lemma {:induction false} CountJoins(a: seq<Row>, b: seq<Row>, version: nat)
    ensures CountBelow(a + b, version) == CountBelow(a, version) + CountBelow(b, version)
  {
    if b == [] {
      assert a + b == a;
    } else {
      var last: nat := |b| - 1;
      CountJoins(a, b[..last], version);
      assert (a + b)[..|a| + last] == a + b[..last];
    }
  }

  lemma {:induction false} CountOne(r: Row, version: nat)
    ensures CountBelow([r], version) == if r.version < version then 1 else 0
  {
    assert [r][..0] == [];
  }

  lemma {:induction false} InsertCounts(r: Row, s: seq<Row>, version: nat)
    ensures CountBelow(Feed.Insert(r, s), version) == CountBelow(s, version) + CountBelow([r], version)
  {
    if s == [] || r.version <= s[0].version {
      CountJoins([r], s, version);
    } else {
      InsertCounts(r, s[1..], version);
      assert s == [s[0]] + s[1..];
      CountJoins([s[0]], s[1..], version);
      CountJoins([s[0]], Feed.Insert(r, s[1..]), version);
    }
  }

  /** Sorting changes no count. */
  lemma {:induction false} SortCounts(s: seq<Row>, version: nat)
    ensures CountBelow(Feed.SortRows(s), version) == CountBelow(s, version)
  {
    if s != [] {
      var last: nat := |s| - 1;
      SortCounts(s[..last], version);
      InsertCounts(s[last], Feed.SortRows(s[..last]), version);
      CountOne(s[last], version);
    }
  }

  /** In an ascending sequence the rows below a version come first. */
  lemma {:induction false} BelowComeFirst(s: seq<Row>, version: nat, k: nat)
    requires Feed.Ascending(s) && k < |s|
    ensures s[k].version < version <==> k < CountBelow(s, version)
    ensures CountBelow(s, version) <= |s|
  {
    var last: nat := |s| - 1;
    if k < last {
      BelowComeFirst(s[..last], version, k);
    }
    CountIsAtMost(s[..last], version);
    if s[last].version < version {
      AllBelowCount(s[..last], version);
    }
  }

  lemma {:induction false} CountIsAtMost(s: seq<Row>, version: nat)
    ensures CountBelow(s, version) <= |s|
  {
    if s != [] {
      CountIsAtMost(s[..|s| - 1], version);
    }
  }

  lemma {:induction false} AllBelowCount(s: seq<Row>, version: nat)
    requires forall i :: 0 <= i < |s| ==> s[i].version < version
    ensures CountBelow(s, version) == |s|
  {
    if s != [] {
      AllBelowCount(s[..|s| - 1], version);
    }
  }

  // ---- one limit ---------------------------------------------------------------

  /** How many of the listed rows lie strictly between a cursor and a version. */
  function Between(list: seq<Row>, since: nat, version: nat): nat {
    CountBelow(Feed.Above(list, since), version)
  }

  /** The last row of a truncated page is above a version exactly when fewer rows than the
      page has are below it. */
  lemma {:induction false} LastRowPasses(whole: seq<Row>, page: seq<Row>, since: nat, limit: nat, version: nat)
    requires Feed.Ascending(whole) && page == Feed.Take(whole, limit) && 1 <= limit && since < version
    requires forall k :: 0 <= k < |whole| ==> whole[k].version != version
    ensures version <= Feed.CursorAfter(page, since)
            <==> CountBelow(whole, version) < limit && CountBelow(whole, version) < |whole|
  {
    CountIsAtMost(whole, version);
    if page != [] {
      var last: nat := |page| - 1;
      assert page[last] == whole[last];
      BelowComeFirst(whole, version, last);
    }
  }

  /** A page's cursor passes a version that no listed row has exactly when some listed row is
      above it and fewer than `limit` lie below. */
  lemma {:induction false} CursorPassesExactly(list: seq<Row>, since: nat, limit: nat, version: nat)
    requires Feed.DistinctVersions(list) && 1 <= limit && since < version
    requires forall y :: y in list ==> y.version != version
    ensures version <= Feed.CursorAfter(Feed.PageOf(list, since, limit), since)
            <==> Between(list, since, version) < limit && exists y :: y in list && version < y.version
  {
    var whole := Feed.Delta(list, since);
    Feed.DeltaAscends(list, since);
    SortCounts(Feed.Above(list, since), version);
    forall k | 0 <= k < |whole| ensures whole[k].version != version {
      assert whole[k] in whole;
    }
    LastRowPasses(whole, Feed.PageOf(list, since, limit), since, limit, version);
    SomeRowAbove(list, whole, since, version);
  }

  /** Some listed row is above the version exactly when the count stops short of the delta. */
  lemma {:induction false} SomeRowAbove(list: seq<Row>, whole: seq<Row>, since: nat, version: nat)
    requires whole == Feed.Delta(list, since) && Feed.Ascending(whole) && since < version
    requires forall y :: y in list ==> y.version != version
    ensures (exists y :: y in list && version < y.version) <==> CountBelow(whole, version) < |whole|
  {
    CountIsAtMost(whole, version);
    if y :| y in list && version < y.version {
      assert y in whole;
      var k: nat :| k < |whole| && whole[k] == y;
      BelowComeFirst(whole, version, k);
    }
    if CountBelow(whole, version) < |whole| {
      var k := CountBelow(whole, version);
      BelowComeFirst(whole, version, k);
      assert whole[k] in whole && whole[k] in list;
    }
  }

  /** A committed row that the reads came too early for. */
  ghost predicate Late(rows: map<Key, Row>, seen: Seen, tenant: nat, since: nat, x: Row) {
    IsRowOf(rows, tenant, x) && since < x.version && !WasRead(seen, tenant, x)
  }

  /** ... while a newer row was read. */
  ghost predicate ReadAbove(seen: Seen, tenant: nat, version: nat) {
    exists y :: WasRead(seen, tenant, y) && version < y.version
  }

  lemma {:induction false} LateVersionsAreUnread(
      keyOf: nat -> int, actions: seq<Action>, at: seq<nat>, seen: Seen, tenant: nat, list: seq<Row>, since: nat,
      x: Row)
    requires ReadInOrder(keyOf, actions, at, seen) && ListsReads(seen, tenant, list)
    requires Late(Run(keyOf, actions).rows, seen, tenant, since, x)
    ensures forall y :: y in list ==> y.version != x.version
  {
    RunKeepsHistory(keyOf, actions);
    RunKeeps(keyOf, actions);
    assert (tenant, x) in Run(keyOf, actions).history;
    forall y | y in list ensures y.version != x.version {
      ReadRowsWereCommitted(keyOf, actions, at, seen, tenant, y);
    }
  }

  /** A page of one limit steps over a row exactly when the row came too late for its table's
      read, a newer row was read, and fewer than `limit` read rows lie between. */
  ghost predicate Skips(rows: map<Key, Row>, seen: Seen, tenant: nat, list: seq<Row>, since: nat, limit: nat, x: Row) {
    Late(rows, seen, tenant, since, x) && ReadAbove(seen, tenant, x.version) && Between(list, since, x.version) < limit
  }

  lemma {:induction false} StepsOverExactly(
      keyOf: nat -> int, actions: seq<Action>, at: seq<nat>, seen: Seen, tenant: nat, list: seq<Row>, since: nat,
      limit: nat, x: Row)
    requires ReadInOrder(keyOf, actions, at, seen) && ListsReads(seen, tenant, list) && 1 <= limit
    requires Late(Run(keyOf, actions).rows, seen, tenant, since, x)
    ensures x.version <= Feed.CursorAfter(Feed.PageOf(list, since, limit), since)
            <==> Skips(Run(keyOf, actions).rows, seen, tenant, list, since, limit, x)
  {
    ReadVersionsAreDistinct(keyOf, actions, at, seen, tenant, list);
    LateVersionsAreUnread(keyOf, actions, at, seen, tenant, list, since, x);
    CursorPassesExactly(list, since, limit, x.version);
    if y :| y in list && x.version < y.version {
      assert WasRead(seen, tenant, y);
    }
    if ReadAbove(seen, tenant, x.version) {
      var y :| WasRead(seen, tenant, y) && x.version < y.version;
      assert y in list;
    }
  }

  /** Whatever commits between the reads, a page of a given limit has a gap exactly when it
      steps over some row in that sense. */
  lemma {:induction false} GapFreeExactly(
      keyOf: nat -> int, actions: seq<Action>, at: seq<nat>, seen: Seen, tenant: nat, list: seq<Row>, since: nat,
      limit: nat)
    requires ReadInOrder(keyOf, actions, at, seen) && ListsReads(seen, tenant, list) && 1 <= limit
    ensures GapFree(Run(keyOf, actions).rows, tenant, since, Feed.PageOf(list, since, limit))
            <==> !exists x :: Skips(Run(keyOf, actions).rows, seen, tenant, list, since, limit, x)
  {
    var rows, cursor := Run(keyOf, actions).rows, Feed.CursorAfter(Feed.PageOf(list, since, limit), since);
    GapFreeUpToCursor(keyOf, actions, at, seen, tenant, list, since, limit);
    if x :| Skips(rows, seen, tenant, list, since, limit, x) {
      StepsOverExactly(keyOf, actions, at, seen, tenant, list, since, limit, x);
    } else {
      forall x | IsRowOf(rows, tenant, x) && since < x.version <= cursor ensures WasRead(seen, tenant, x) {
        if !WasRead(seen, tenant, x) {
          StepsOverExactly(keyOf, actions, at, seen, tenant, list, since, limit, x);
        }
      }
    }
  }

  // ---- every limit -------------------------------------------------------------

  /** A row came too late for its table's read while a newer one was read. */
  ghost predicate LateBelow(rows: map<Key, Row>, seen: Seen, tenant: nat, since: nat) {
    exists x :: Late(rows, seen, tenant, since, x) && ReadAbove(seen, tenant, x.version)
  }

  /** No page has a gap, at any limit, exactly when no row came too late below one that was
      read. */
  lemma {:induction false} GapFreeAtEveryLimit(
      keyOf: nat -> int, actions: seq<Action>, at: seq<nat>, seen: Seen, tenant: nat, list: seq<Row>, since: nat)
    requires ReadInOrder(keyOf, actions, at, seen) && ListsReads(seen, tenant, list)
    ensures (forall limit: nat :: 1 <= limit ==>
               GapFree(Run(keyOf, actions).rows, tenant, since, Feed.PageOf(list, since, limit)))
            <==> !LateBelow(Run(keyOf, actions).rows, seen, tenant, since)
  {
    var rows := Run(keyOf, actions).rows;
    if x :| Late(rows, seen, tenant, since, x) && ReadAbove(seen, tenant, x.version) {
      var limit := Between(list, since, x.version) + 1;
      GapFreeExactly(keyOf, actions, at, seen, tenant, list, since, limit);
      assert Skips(rows, seen, tenant, list, since, limit, x);
      assert !GapFree(rows, tenant, since, Feed.PageOf(list, since, limit));
    } else {
      forall limit: nat | 1 <= limit ensures GapFree(rows, tenant, since, Feed.PageOf(list, since, limit)) {
        GapFreeExactly(keyOf, actions, at, seen, tenant, list, since, limit);
      }
    }
  }

  // ---- the order of commits and reads ------------------------------------------

  /** The step of the run that committed this copy of a row. */
  ghost predicate CommittedAt(keyOf: nat -> int, actions: seq<Action>, tenant: nat, x: Row, c: nat) {
    c < |actions| && (tenant, x) !in Run(keyOf, actions[..c]).history
    && (tenant, x) in Run(keyOf, actions[..c + 1]).history
  }

  lemma {:induction false} WasCommittedAt(keyOf: nat -> int, actions: seq<Action>, tenant: nat, x: Row) returns (c: nat)
    requires (tenant, x) in Run(keyOf, actions).history
    ensures CommittedAt(keyOf, actions, tenant, x, c)
  {
    var last: nat := |actions| - 1;
    if (tenant, x) in Run(keyOf, actions[..last]).history {
      c := WasCommittedAt(keyOf, actions[..last], tenant, x);
      assert actions[..last][..c] == actions[..c] && actions[..last][..c + 1] == actions[..c + 1];
    } else {
      c := last;
      assert actions[..last + 1] == actions;
    }
  }

  lemma {:induction false} HistoryBetween(keyOf: nat -> int, actions: seq<Action>, n: nat, m: nat)
    requires n <= m <= |actions|
    ensures Run(keyOf, actions[..n]).history <= Run(keyOf, actions[..m]).history
  {
    assert actions[..m][..n] == actions[..n];
    HistoryGrows(keyOf, actions[..m], n);
  }

  /** A copy committed by a step is above every copy of its tenant committed before. */
  lemma {:induction false} NewIsAboveOld(s: Server, s': Server, tenant: nat, x: Row, y: Row)
    requires HistoryOk(s.rows, s.history) && CommitsAbove(s, s')
    requires (tenant, x) in s.history && (tenant, y) !in s.history && (tenant, y) in s'.history
    ensures x.version < y.version
  {
    assert AboveTenant(s.rows, tenant, y.version);
    assert Key(tenant, x.id) in s.rows;
  }

  lemma {:induction false} NextOf(keyOf: nat -> int, actions: seq<Action>, n: nat)
    requires n < |actions|
    ensures Run(keyOf, actions[..n + 1]) == Next(keyOf, Run(keyOf, actions[..n]), actions[n])
  {
    assert actions[..n + 1][..n] == actions[..n];
  }

  /** Of two copies of a tenant's rows the one committed earlier has the lower version. */
  lemma {:induction false} EarlierIsLower(
      keyOf: nat -> int, actions: seq<Action>, tenant: nat, x: Row, y: Row, cx: nat, cy: nat)
    requires CommittedAt(keyOf, actions, tenant, x, cx) && CommittedAt(keyOf, actions, tenant, y, cy) && cx < cy
    ensures x.version < y.version
  {
    var m := cx + 1;
    HistoryBetween(keyOf, actions, m, cy);
    NextOf(keyOf, actions, cy);
    var s := Run(keyOf, actions[..cy]);
    RunKeeps(keyOf, actions[..cy]);
    RunKeepsHistory(keyOf, actions[..cy]);
    StepCommitsAbove(keyOf, s, actions[cy]);
    NewIsAboveOld(s, Next(keyOf, s, actions[cy]), tenant, x, y);
  }

  /** A row that was read was committed before its table was. */
  lemma {:induction false} ReadAfterCommit(
      keyOf: nat -> int, actions: seq<Action>, at: seq<nat>, seen: Seen, tenant: nat, y: Row, c: nat)
    requires ReadInOrder(keyOf, actions, at, seen) && WasRead(seen, tenant, y)
    requires CommittedAt(keyOf, actions, tenant, y, c)
    ensures c < at[TableOf(y.id)]
  {
    var n := at[TableOf(y.id)];
    RunKeeps(keyOf, actions[..n]);
    assert Key(tenant, y.id) in Run(keyOf, actions[..n]).rows;
    if n <= c {
      HistoryBetween(keyOf, actions, n, c);
    }
  }

  /** A current row that was not read was committed after its table was. */
  lemma {:induction false} UnreadBeforeCommit(
      keyOf: nat -> int, actions: seq<Action>, at: seq<nat>, seen: Seen, tenant: nat, x: Row, c: nat)
    requires ReadInOrder(keyOf, actions, at, seen) && CommittedAt(keyOf, actions, tenant, x, c)
    requires IsRowOf(Run(keyOf, actions).rows, tenant, x) && !WasRead(seen, tenant, x)
    ensures at[TableOf(x.id)] <= c
  {
    var n := at[TableOf(x.id)];
    if c < n {
      var m := c + 1;
      HistoryBetween(keyOf, actions, m, n);
      CurrentSince(keyOf, actions, n, tenant, x);
    }
  }

  /** A current copy has been current ever since it was committed. */
  lemma {:induction false} CurrentSince(keyOf: nat -> int, actions: seq<Action>, n: nat, tenant: nat, x: Row)
    requires n <= |actions| && IsRowOf(Run(keyOf, actions).rows, tenant, x)
    requires (tenant, x) in Run(keyOf, actions[..n]).history
    ensures IsRowOf(Run(keyOf, actions[..n]).rows, tenant, x)
  {
    var s, k := Run(keyOf, actions[..n]), Key(tenant, x.id);
    RunKeeps(keyOf, actions[..n]);
    RunKeepsHistory(keyOf, actions[..n]);
    CommitOrderIsVersionOrder(keyOf, actions, n);
    assert k in s.rows && (tenant, s.rows[k]) in s.history;
  }

  /** `x` was committed after its own table was read; `y` no earlier, and yet before its table
      was read. */
  ghost predicate Crosses(
      keyOf: nat -> int, actions: seq<Action>, at: seq<nat>, seen: Seen, tenant: nat, since: nat, x: Row, y: Row,
      cx: nat, cy: nat)
    requires |at| == Feed.ENTITIES
  {
    IsRowOf(Run(keyOf, actions).rows, tenant, x) && since < x.version && WasRead(seen, tenant, y)
    && CommittedAt(keyOf, actions, tenant, x, cx) && CommittedAt(keyOf, actions, tenant, y, cy)
    && at[TableOf(x.id)] <= cx <= cy < at[TableOf(y.id)]
    && (cx == cy ==> x.version < y.version)
  }

  ghost predicate SomeCrossing(
      keyOf: nat -> int, actions: seq<Action>, at: seq<nat>, seen: Seen, tenant: nat, since: nat)
    requires |at| == Feed.ENTITIES
  {
    exists x, y, cx, cy :: Crosses(keyOf, actions, at, seen, tenant, since, x, y, cx, cy)
  }

  lemma {:induction false} CrossingIsLate(
      keyOf: nat -> int, actions: seq<Action>, at: seq<nat>, seen: Seen, tenant: nat, since: nat, x: Row, y: Row,
      cx: nat, cy: nat)
    requires ReadInOrder(keyOf, actions, at, seen)
    requires Crosses(keyOf, actions, at, seen, tenant, since, x, y, cx, cy)
    ensures Late(Run(keyOf, actions).rows, seen, tenant, since, x) && ReadAbove(seen, tenant, x.version)
  {
    if WasRead(seen, tenant, x) {
      ReadAfterCommit(keyOf, actions, at, seen, tenant, x, cx);
    }
    if cx < cy {
      EarlierIsLower(keyOf, actions, tenant, x, y, cx, cy);
    }
  }

  lemma {:induction false} LateIsCrossing(
      keyOf: nat -> int, actions: seq<Action>, at: seq<nat>, seen: Seen, tenant: nat, since: nat, x: Row, y: Row)
    requires ReadInOrder(keyOf, actions, at, seen)
    requires Late(Run(keyOf, actions).rows, seen, tenant, since, x) && WasRead(seen, tenant, y) && x.version < y.version
    ensures SomeCrossing(keyOf, actions, at, seen, tenant, since)
  {
    RunKeeps(keyOf, actions);
    ReadRowsWereCommitted(keyOf, actions, at, seen, tenant, y);
    assert (tenant, x) in Run(keyOf, actions).history;
    var cx := WasCommittedAt(keyOf, actions, tenant, x);
    var cy := WasCommittedAt(keyOf, actions, tenant, y);
    UnreadBeforeCommit(keyOf, actions, at, seen, tenant, x, cx);
    ReadAfterCommit(keyOf, actions, at, seen, tenant, y, cy);
    if cy < cx {
      EarlierIsLower(keyOf, actions, tenant, y, x, cy, cx);
    }
    assert Crosses(keyOf, actions, at, seen, tenant, since, x, y, cx, cy);
  }

  /** In terms of the schedule: some page has a gap exactly when a row was committed after its
      own table was read and another no earlier, yet before its own table was. */
  lemma {:induction false} GapsAreCrossings(
      keyOf: nat -> int, actions: seq<Action>, at: seq<nat>, seen: Seen, tenant: nat, since: nat)
    requires ReadInOrder(keyOf, actions, at, seen)
    ensures LateBelow(Run(keyOf, actions).rows, seen, tenant, since)
            <==> SomeCrossing(keyOf, actions, at, seen, tenant, since)
  {
    var rows := Run(keyOf, actions).rows;
    if LateBelow(rows, seen, tenant, since) {
      var x :| Late(rows, seen, tenant, since, x) && ReadAbove(seen, tenant, x.version);
      var y :| WasRead(seen, tenant, y) && x.version < y.version;
      LateIsCrossing(keyOf, actions, at, seen, tenant, since, x, y);
    }
    if SomeCrossing(keyOf, actions, at, seen, tenant, since) {
      var x, y, cx, cy :| Crosses(keyOf, actions, at, seen, tenant, since, x, y, cx, cy);
      CrossingIsLate(keyOf, actions, at, seen, tenant, since, x, y, cx, cy);
    }
  }

  /** A single commit between the reads makes a gap only if it wrote two tables: a row of the
      one read earlier, at the lower version, and a row of the one read later. */
  lemma {:induction false} OneCommitNeedsTwoTables(
      keyOf: nat -> int, actions: seq<Action>, at: seq<nat>, seen: Seen, tenant: nat, since: nat, x: Row, y: Row,
      c: nat)
    requires ReadInOrder(keyOf, actions, at, seen)
    requires Crosses(keyOf, actions, at, seen, tenant, since, x, y, c, c)
    ensures TableOf(x.id) < TableOf(y.id) && x.version < y.version
    ensures actions[c].Commit?
            && var s := Run(keyOf, actions[..c]);
               actions[c].txn in s.txns
               && var t := s.txns[actions[c].txn];
                  t.tenant == tenant && x.id in t.writes && t.writes[x.id] == x
                  && y.id in t.writes && t.writes[y.id] == y
  {
    var s := Run(keyOf, actions[..c]);
    assert actions[..c + 1][..c] == actions[..c];
    RunKeeps(keyOf, actions[..c]);
    if !actions[c].Commit? {
      OthersCommitNothing(keyOf, s, actions[c]);
    }
    CommittedWrite(keyOf, s, actions[c].txn, actions[c].result, tenant, x);
    CommittedWrite(keyOf, s, actions[c].txn, actions[c].result, tenant, y);
  }

  lemma {:induction false} CommittedWrite(keyOf: nat -> int, s: Server, t: nat, result: int, tenant: nat, x: Row)
    requires Inv(keyOf, s) && (tenant, x) !in s.history && (tenant, x) in DoCommit(s, t, result).history
    ensures t in s.txns && s.txns[t].tenant == tenant && x.id in s.txns[t].writes && s.txns[t].writes[x.id] == x
  {
    CommitPublishesStaged(s, t, result, tenant, x);
    assert TxnOk(keyOf, s, t, s.txns[t]);
  }
}
