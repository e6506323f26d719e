/** A page whose tables are read one after the other, each in a snapshot of its own, as the
    route issues them: exactly when it has a gap, and a run in which it does. */
module SyncSnapshots {
  import opened Outcomes
  import opened OpTypes
  import opened Registers
  import Feed
  import opened SyncProtocol
  import opened SyncInvariants
  import opened SyncTheorems
  import opened SyncHistory

  /** The table a feed row is in. */
  function TableOf(id: nat): nat {
    id % Feed.ENTITIES
  }

  /** The committed rows when each table was read. */
  type Seen = seen: seq<map<Key, Row>> | |seen| == Feed.ENTITIES witness [map[], map[], map[], map[], map[]]

  /** Table after table is read, each at a point of the run no earlier than the one before. */
  ghost predicate ReadInOrder(keyOf: nat -> int, actions: seq<Action>, at: seq<nat>, seen: Seen) {
    |at| == Feed.ENTITIES
    && (forall e, f :: 0 <= e <= f < |at| ==> at[e] <= at[f])
    && (forall e :: 0 <= e < |at| ==> at[e] <= |actions| && seen[e] == Run(keyOf, actions[..at[e]]).rows)
  }

  /** The row was read from its own table. */
  ghost predicate WasRead(seen: Seen, tenant: nat, row: Row) {
    IsRowOf(seen[TableOf(row.id)], tenant, row)
  }

  /** The rows a page is taken from: each table's, as it was when it was read. */
  ghost predicate ListsReads(seen: Seen, tenant: nat, list: seq<Row>) {
    (forall x :: x in list <==> WasRead(seen, tenant, x))
    && (forall i, j :: 0 <= i < j < |list| ==> list[i] != list[j])
  }

  /** The page leaves out no committed row up to its own cursor. */
  ghost predicate GapFree(rows: map<Key, Row>, tenant: nat, since: nat, page: seq<Row>) {
    forall x :: IsRowOf(rows, tenant, x) && since < x.version <= Feed.CursorAfter(page, since) ==> x in page
  }

  lemma {:induction false} ReadRowsWereCommitted(
      keyOf: nat -> int, actions: seq<Action>, at: seq<nat>, seen: Seen, tenant: nat, x: Row)
    requires ReadInOrder(keyOf, actions, at, seen) && WasRead(seen, tenant, x)
    ensures (tenant, x) in Run(keyOf, actions).history
  {
    var n := at[TableOf(x.id)];
    RunKeeps(keyOf, actions[..n]);
    HistoryGrows(keyOf, actions, n);
    assert Key(tenant, x.id) in Run(keyOf, actions[..n]).rows;
  }

  lemma {:induction false} ReadVersionsAreDistinct(
      keyOf: nat -> int, actions: seq<Action>, at: seq<nat>, seen: Seen, tenant: nat, list: seq<Row>)
    requires ReadInOrder(keyOf, actions, at, seen) && ListsReads(seen, tenant, list)
    ensures Feed.DistinctVersions(list)
  {
    RunKeepsHistory(keyOf, actions);
    forall i, j | 0 <= i < j < |list| ensures list[i].version != list[j].version {
      assert list[i] in list && list[j] in list;
      ReadRowsWereCommitted(keyOf, actions, at, seen, tenant, list[i]);
      ReadRowsWereCommitted(keyOf, actions, at, seen, tenant, list[j]);
    }
  }

  /** Every committed row up to the page's cursor had been committed, as it is, when its own
      table was read. */
  ghost predicate AllReadInTime(rows: map<Key, Row>, seen: Seen, tenant: nat, since: nat, cursor: nat) {
    forall x :: IsRowOf(rows, tenant, x) && since < x.version <= cursor ==> WasRead(seen, tenant, x)
  }

  /** Up to its own cursor a page leaves out exactly what was not read. */
  lemma {:induction false} GapFreeUpToCursor(
      keyOf: nat -> int, actions: seq<Action>, at: seq<nat>, seen: Seen, tenant: nat, list: seq<Row>, since: nat,
      limit: nat)
    requires ReadInOrder(keyOf, actions, at, seen) && ListsReads(seen, tenant, list) && 1 <= limit
    ensures var rows, page := Run(keyOf, actions).rows, Feed.PageOf(list, since, limit);
            GapFree(rows, tenant, since, page)
            <==> AllReadInTime(rows, seen, tenant, since, Feed.CursorAfter(page, since))
  {
    var rows, page := Run(keyOf, actions).rows, Feed.PageOf(list, since, limit);
    ReadVersionsAreDistinct(keyOf, actions, at, seen, tenant, list);
    Feed.PageHasNoGap(list, since, limit);
    PagesHoldWhatWasRead(rows, seen, tenant, list, since, page);
  }

  lemma {:induction false} PagesHoldWhatWasRead(
      rows: map<Key, Row>, seen: Seen, tenant: nat, list: seq<Row>, since: nat, page: seq<Row>)
    requires ListsReads(seen, tenant, list) && Feed.IsPage((set x | x in list), since, page)
    ensures GapFree(rows, tenant, since, page)
            <==> AllReadInTime(rows, seen, tenant, since, Feed.CursorAfter(page, since))
  {
    var cursor := Feed.CursorAfter(page, since);
    if GapFree(rows, tenant, since, page) {
      forall x | IsRowOf(rows, tenant, x) && since < x.version <= cursor ensures WasRead(seen, tenant, x) {
        assert x in page && x in list;
      }
    }
    if AllReadInTime(rows, seen, tenant, since, cursor) {
      forall x | IsRowOf(rows, tenant, x) && since < x.version <= cursor ensures x in page {
        assert WasRead(seen, tenant, x) && x in list;
      }
    }
  }

  /** One snapshot is the case in which nothing commits between the reads, and then there is
      never a gap. */
  lemma {:induction false} OneSnapshotIsGapFree(
      keyOf: nat -> int, actions: seq<Action>, seen: Seen, tenant: nat, list: seq<Row>, since: nat, limit: nat)
    requires ListsReads(seen, tenant, list) && 1 <= limit
    requires forall e :: 0 <= e < |seen| ==> seen[e] == Run(keyOf, actions).rows
    ensures GapFree(Run(keyOf, actions).rows, tenant, since, Feed.PageOf(list, since, limit))
  {
    var at := seq(Feed.ENTITIES, e => |actions|);
    assert actions[..|actions|] == actions;
    GapFreeUpToCursor(keyOf, actions, at, seen, tenant, list, since, limit);
  }

  /** A row stepped over stays out of every later page of that client, however it is read. */
  lemma {:induction false} SkippedForGood(x: Row, cursor: nat, list: seq<Row>, limit: nat)
    requires x.version <= cursor && 1 <= limit
    ensures x !in Feed.PageOf(list, cursor, limit)
  {
    forall y | y in Feed.PageOf(list, cursor, limit) ensures cursor < y.version {
      assert y in Feed.Delta(list, cursor);
    }
  }

  // ---- a run in which it happens -----------------------------------------------

  /** One operation from a free lock: begin, lock, look, claim, write one row, commit. */
  function OneWrite(t: nat, tenant: nat, opId: nat, request: Request<int>, row: nat): seq<Action> {
    [Begin(t, tenant, opId, request), Lock(t), Look(t), Claim(t), Write(t, row, 0), Commit(t, 0)]
  }

  /** Nobody is at work. */
  ghost predicate Quiet(s: Server) {
    s.txns == map[] && s.locks == map[]
  }

  lemma {:induction false} Claims(keyOf: nat -> int, s: Server, t: nat, tenant: nat, opId: nat, request: Request<int>)
    requires Quiet(s) && Key(tenant, opId) !in s.register && FeedWriting(request.op)
    ensures var begun := Next(keyOf, s, Begin(t, tenant, opId, request));
            var claimed := Next(keyOf, Next(keyOf, Next(keyOf, begun, Lock(t)), Look(t)), Claim(t));
            var x := Txn(tenant, opId, request, Claimed, true, map[], false, false, false);
            claimed == s.(txns := map[t := x], locks := map[keyOf(tenant) := t])
  {
    var begun := Next(keyOf, s, Begin(t, tenant, opId, request));
    var locked := Next(keyOf, begun, Lock(t));
    var looked := Next(keyOf, locked, Look(t));
    assert looked.txns[t].phase == Looked && looked.register == s.register;
    assert !ClaimWaits(looked.txns, t);
  }

  lemma {:induction false} WritesAndCommits(keyOf: nat -> int, s: Server, claimed: Server, t: nat, x: Txn, row: nat)
    requires Quiet(s) && x == Txn(x.tenant, x.opId, x.request, Claimed, true, map[], false, false, false)
    requires FeedWriting(x.request.op) && claimed == s.(txns := map[t := x], locks := map[keyOf(x.tenant) := t])
    ensures var s' := Next(keyOf, Next(keyOf, claimed, Write(t, row, 0)), Commit(t, 0));
            Quiet(s') && s'.nextVersion == s.nextVersion + 1
            && s'.rows == s.rows[Key(x.tenant, row) := Feed.Row(s.nextVersion, row, 0)]
            && s'.register == s.register[x.Register() := Registered(x.request, 0)]
  {
    var written := Next(keyOf, claimed, Write(t, row, 0));
    assert written.txns[t].writes == map[row := Feed.Row(s.nextVersion, row, 0)];
    var s' := Next(keyOf, written, Commit(t, 0));
    assert s'.txns == map[] && s'.locks == map[];
    OneRowAfter(s.rows, x.tenant, row, Feed.Row(s.nextVersion, row, 0));
  }

  lemma {:induction false} OneRowAfter(rows: map<Key, Row>, tenant: nat, row: nat, written: Row)
    ensures RowsAfter(rows, tenant, map[row := written]) == rows[Key(tenant, row) := written]
  {
  }

  ghost function After(keyOf: nat -> int, s: Server, actions: seq<Action>): Server
    decreases |actions|
  {
    if actions == [] then s else After(keyOf, Next(keyOf, s, actions[0]), actions[1..])
  }

  lemma {:induction false} RunThenAfter(keyOf: nat -> int, before: seq<Action>, more: seq<Action>)
    ensures Run(keyOf, before + more) == After(keyOf, Run(keyOf, before), more)
    decreases |more|
  {
    if more == [] {
      assert before + more == before;
    } else {
      assert before + more == (before + [more[0]]) + more[1..];
      assert (before + [more[0]])[..|before|] == before;
      RunThenAfter(keyOf, before + [more[0]], more[1..]);
    }
  }

  /** From a quiet server such an operation gets through. */
  lemma {:induction false} OneWriteCommits(
      keyOf: nat -> int, s: Server, t: nat, tenant: nat, opId: nat, request: Request<int>, row: nat)
    requires Quiet(s) && Key(tenant, opId) !in s.register && FeedWriting(request.op)
    ensures var s' := After(keyOf, s, OneWrite(t, tenant, opId, request, row));
            Quiet(s') && s'.nextVersion == s.nextVersion + 1
            && s'.rows == s.rows[Key(tenant, row) := Feed.Row(s.nextVersion, row, 0)]
            && s'.register == s.register[Key(tenant, opId) := Registered(request, 0)]
  {
    var begun := Next(keyOf, s, Begin(t, tenant, opId, request));
    var claimed := Next(keyOf, Next(keyOf, Next(keyOf, begun, Lock(t)), Look(t)), Claim(t));
    var x := Txn(tenant, opId, request, Claimed, true, map[], false, false, false);
    Claims(keyOf, s, t, tenant, opId, request);
    WritesAndCommits(keyOf, s, claimed, t, x, row);
    SixSteps(keyOf, s, Begin(t, tenant, opId, request), Lock(t), Look(t), Claim(t), Write(t, row, 0), Commit(t, 0));
  }

  lemma {:induction false} FirstStep(keyOf: nat -> int, s: Server, a: Action, rest: seq<Action>)
    ensures After(keyOf, s, [a] + rest) == After(keyOf, Next(keyOf, s, a), rest)
  {
    assert ([a] + rest)[1..] == rest;
  }

  lemma {:induction false} SixSteps(
      keyOf: nat -> int, s: Server, a: Action, b: Action, c: Action, d: Action, e: Action, f: Action)
    ensures After(keyOf, s, [a, b, c, d, e, f])
            == Next(keyOf, Next(keyOf, Next(keyOf, Next(keyOf, Next(keyOf, Next(keyOf, s, a), b), c), d), e), f)
  {
    var s1 := Next(keyOf, s, a);
    var s2 := Next(keyOf, s1, b);
    var s3 := Next(keyOf, s2, c);
    var s4 := Next(keyOf, s3, d);
    var s5 := Next(keyOf, s4, e);
    assert [a, b, c, d, e, f] == [a] + ([b] + ([c] + ([d] + ([e] + ([f] + [])))));
    FirstStep(keyOf, s, a, [b] + ([c] + ([d] + ([e] + ([f] + [])))));
    FirstStep(keyOf, s1, b, [c] + ([d] + ([e] + ([f] + []))));
    FirstStep(keyOf, s2, c, [d] + ([e] + ([f] + [])));
    FirstStep(keyOf, s3, d, [e] + ([f] + []));
    FirstStep(keyOf, s4, e, [f] + []);
    FirstStep(keyOf, s5, f, []);
  }

  /** A row that is alone above the cursor is the page. */
  lemma {:induction false} OnlyRowIsPage(list: seq<Row>, row: Row, since: nat, limit: nat)
    requires |list| == 1 && list[0] == row && since < row.version && 1 <= limit
    ensures Feed.PageOf(list, since, limit) == list && Feed.CursorAfter(list, since) == row.version
  {
    var page := Feed.PageOf(list, since, limit);
    Feed.PageHasNoGap(list, since, limit);
    assert row in list;
    assert page != [] && page[0] in page;
    forall x ensures x in page <==> x in list {
      OnlyMember(list, row, page, x);
    }
    Feed.SameRowsSameSequence(page, list);
  }

  lemma {:induction false} OnlyMember(list: seq<Row>, row: Row, page: seq<Row>, x: Row)
    requires |list| == 1 && list[0] == row && page != [] && forall y :: y in page ==> y in list
    ensures x in page <==> x in list
  {
    assert page[0] in page && page[0] in list;
  }

  /** Two operations commit in order after the first table was read and before the second:
      the first writes a row of the first table, the other a row of the second. */
  function TwoWrites(request: Request<int>): seq<Action> {
    OneWrite(0, 0, 1, request, 0) + OneWrite(0, 0, 2, request, 1)
  }

  lemma {:induction false} TwoWritesCommit(keyOf: nat -> int, request: Request<int>, s: Server)
    requires FeedWriting(request.op) && s == Run(keyOf, TwoWrites(request))
    ensures s.rows == map[Key(0, 0) := Feed.Row(1, 0, 0), Key(0, 1) := Feed.Row(2, 1, 0)]
  {
    var first, other := OneWrite(0, 0, 1, request, 0), OneWrite(0, 0, 2, request, 1);
    var s1 := After(keyOf, Start(), first);
    OneWriteCommits(keyOf, Start(), 0, 0, 1, request, 0);
    RunThenAfter(keyOf, [], first);
    assert [] + first == first;
    OneWriteCommits(keyOf, s1, 0, 0, 2, request, 1);
    RunThenAfter(keyOf, first, other);
  }

  lemma {:induction false} OnlyLateWasRead(rows: map<Key, Row>, seen: Seen, late: Row, x: Row)
    requires rows == map[Key(0, 0) := Feed.Row(1, 0, 0), Key(0, 1) := late] && late == Feed.Row(2, 1, 0)
    requires seen[0] == map[] && forall e :: 0 < e < |seen| ==> seen[e] == rows
    ensures WasRead(seen, 0, x) <==> x == late
  {
  }

  lemma {:induction false} FirstReadEarly(keyOf: nat -> int, actions: seq<Action>, at: seq<nat>, seen: Seen)
    requires at == [0, |actions|, |actions|, |actions|, |actions|]
    requires seen[0] == map[] && forall e :: 0 < e < |seen| ==> seen[e] == Run(keyOf, actions).rows
    ensures ReadInOrder(keyOf, actions, at, seen)
  {
    assert actions[..0] == [] && actions[..|actions|] == actions;
    assert Run(keyOf, actions[..0]).rows == map[];
  }

  /** A row up to the cursor that is not in the page is a gap, and no later page has it. */
  lemma {:induction false} MissedForGood(rows: map<Key, Row>, early: Row, page: seq<Row>, limit: nat)
    requires IsRowOf(rows, 0, early) && 0 < early.version <= Feed.CursorAfter(page, 0) && early !in page && 1 <= limit
    ensures !GapFree(rows, 0, 0, page)
    ensures forall list: seq<Row> :: early !in Feed.PageOf(list, Feed.CursorAfter(page, 0), limit)
  {
    forall list: seq<Row> ensures early !in Feed.PageOf(list, Feed.CursorAfter(page, 0), limit) {
      SkippedForGood(early, Feed.CursorAfter(page, 0), list, limit);
    }
  }

  lemma {:induction false} LatePage(rows: map<Key, Row>, seen: Seen, page: seq<Row>, late: Row)
    requires rows == map[Key(0, 0) := Feed.Row(1, 0, 0), Key(0, 1) := late] && late == Feed.Row(2, 1, 0)
    requires seen[0] == map[] && forall e :: 0 < e < |seen| ==> seen[e] == rows
    requires |page| == 1 && page[0] == late
    ensures ListsReads(seen, 0, page)
  {
    forall x ensures x in page <==> WasRead(seen, 0, x) {
      OnlyLateWasRead(rows, seen, late, x);
    }
  }

  /** Such a run, with the first table read before both commits and the others after: whatever
      its limit the page holds the second row and not the first, and its cursor steps over the
      first for good. */
  lemma {:induction false} TwoSnapshotsCanSkip(keyOf: nat -> int, request: Request<int>, limit: nat)
    returns (actions: seq<Action>, at: seq<nat>, seen: Seen, page: seq<Row>, early: Row)
    requires FeedWriting(request.op) && 1 <= limit
    ensures ReadInOrder(keyOf, actions, at, seen) && ListsReads(seen, 0, page) && Feed.PageOf(page, 0, limit) == page
    ensures IsRowOf(Run(keyOf, actions).rows, 0, early) && 0 < early.version < Feed.CursorAfter(page, 0)
    ensures !GapFree(Run(keyOf, actions).rows, 0, 0, page)
    ensures forall list: seq<Row> :: early !in Feed.PageOf(list, Feed.CursorAfter(page, 0), limit)
  {
    actions := TwoWrites(request);
    var rows, late := Run(keyOf, actions).rows, Feed.Row(2, 1, 0);
    TwoWritesCommit(keyOf, request, Run(keyOf, actions));
    at, early, page := [0, |actions|, |actions|, |actions|, |actions|], Feed.Row(1, 0, 0), [late];
    seen := [map[], rows, rows, rows, rows];
    FirstReadEarly(keyOf, actions, at, seen);
    LatePage(rows, seen, page, late);
    OnlyRowIsPage(page, late, 0, limit);
    assert Key(0, 0) in rows;
    MissedForGood(rows, early, page, limit);
  }
}
