/** What a client that follows the feed of one tenant's books holds: over every play of
    commands and pulls, at every cursor and every page limit. */
module BooksClients {
  import opened Outcomes
  import opened Calendar
  import opened Money
  import opened Records
  import opened Commission
  import opened Books
  import opened BooksInvariants
  import opened BooksRuns
  import opened BooksAcceptance
  import opened BooksHistory
  import opened BooksFeed
  import Feed

  ghost predicate AllUnder(ts: seq<Settings>, version: nat) {
    forall i :: 0 <= i < |ts| ==> ts[i].version < version
  }

  /** The tables are in order, no two feed rows share a version, and the client has
      everything up to its cursor. */
  ghost predicate WorldOk(w: World) {
    Inv(w.books)
    && AllUnder(w.tenant, w.books.nextVersion) && |w.tenant| <= 1
    && Apart(FeedTables(w.tenant, w.books))
    && IsHistory(w.tables) && w.tables[|w.tables| - 1] == w.books.records
    && w.cursor < w.books.nextVersion
    && FollowsFeed(w.tables, w.client.records, w.cursor)
  }

  // ---- a command ---------------------------------------------------------------

  lemma {:induction false} HistoryGrows(tables: seq<seq<Record>>, rs: seq<Record>)
    requires IsHistory(tables) && TableOrder(rs) && Chained(rs) && Final(tables[|tables| - 1], rs)
    ensures IsHistory(tables + [rs])
  {
    var tables', last: nat := tables + [rs], |tables| - 1;
    forall n, m | 0 <= n <= m < |tables'| ensures Final(tables'[n], tables'[m]) {
      if m <= last {
        assert Final(tables[n], tables[m]);
      } else if n <= last {
        FinalChains(tables[n], tables[last], rs);
      }
    }
  }

  lemma {:induction false} StillPastCopy(tables: seq<seq<Record>>, rs: seq<Record>, i: nat, copy: Record)
    requires IsPastCopy(tables, i, copy)
    ensures IsPastCopy(tables + [rs], i, copy)
  {
    var n: nat :| CopiedAt(tables, i, copy, n);
    assert CopiedAt(tables + [rs], i, copy, n);
  }

  /** Rows drawn above the cursor leave the client as it was. */
  lemma {:induction false} StillFollows(
      tables: seq<seq<Record>>, rs: seq<Record>, store: map<nat, Record>, cursor: nat, version: nat)
    requires tables != [] && FollowsFeed(tables, store, cursor) && cursor < version
    requires Refreshed(tables[|tables| - 1], rs, version)
    ensures FollowsFeed(tables + [rs], store, cursor)
  {
    forall i | i in store ensures store[i].version <= cursor && IsPastCopy(tables + [rs], i, store[i]) {
      StillPastCopy(tables, rs, i, store[i]);
    }
  }

  lemma {:induction false} VersionsOnlyRise(b: Books, cmd: Command)
    requires Inv(b)
    ensures b.nextVersion <= Apply(b, cmd).books.nextVersion
  {
    if cmd.RecordPaymentCmd? || cmd.VoidPaymentCmd? {
      PaymentVersionsRise(b, cmd);
    } else if IsPosting(cmd) {
      ServiceVersionsRise(b, cmd);
    } else if cmd.CloseCycleCmd? && cmd.cycle < |b.cycles| {
      var closed := WithClosed(b, cmd.cycle);
      if IssueStatements(closed, cmd.cycle, Billable(closed, cmd.cycle)).Ok? {
        IssuedVersions(closed, cmd.cycle, Billable(closed, cmd.cycle));
      }
    }
  }

  lemma {:induction false} ServiceVersionsRise(b: Books, cmd: Command)
    requires cmd.RecordServiceCmd? || cmd.CorrectServiceCmd? || cmd.VoidServiceCmd?
    ensures b.nextVersion <= Apply(b, cmd).books.nextVersion
  {
  }

  lemma {:induction false} PaymentVersionsRise(b: Books, cmd: Command)
    requires cmd.RecordPaymentCmd? || cmd.VoidPaymentCmd?
    ensures b.nextVersion <= Apply(b, cmd).books.nextVersion
  {
  }

  lemma {:induction false} OneMoveKeepsApart(ts: seq<seq<Row>>, ts': seq<seq<Row>>, version: nat)
    requires Apart(ts) && Under(ts, version) && OneMoves(ts, ts', version)
    ensures Apart(ts')
  {
    var k :| 0 <= k < |ts| && ts' == ts[k := ts'[k]] && Redrawn(ts[k], ts'[k], version);
    RedrawKeepsApart(ts, k, ts'[k], version);
  }

  lemma {:induction false} CommandKeepsApart(tenant: seq<Settings>, b: Books, cmd: Command)
    requires VersionsOk(b) && Apart(FeedTables(tenant, b)) && AllUnder(tenant, b.nextVersion)
    ensures Apart(FeedTables(tenant, Apply(b, cmd).books))
  {
    CommandMovesOne(tenant, b, cmd);
    RowsUnder(tenant, b);
    OneMoveKeepsApart(FeedTables(tenant, b), FeedTables(tenant, Apply(b, cmd).books), b.nextVersion);
  }

  lemma {:induction false} CommandKeepsHistory(
      tables: seq<seq<Record>>, store: map<nat, Record>, cursor: nat, b: Books, cmd: Command, rs: seq<Record>)
    requires IsHistory(tables) && tables[|tables| - 1] == b.records && FollowsFeed(tables, store, cursor)
    requires VersionsOk(b) && cursor < b.nextVersion && rs == Apply(b, cmd).books.records && Chained(rs)
    ensures IsHistory(tables + [rs]) && FollowsFeed(tables + [rs], store, cursor)
  {
    ApplyKeepsOrder(b, cmd, rs);
    HistoryGrows(tables, rs);
    CommandRefreshes(b, cmd, rs);
    StillFollows(tables, rs, store, cursor, b.nextVersion);
  }

  lemma {:induction false} CommandRefreshes(b: Books, cmd: Command, rs: seq<Record>)
    requires VersionsOk(b) && rs == Apply(b, cmd).books.records
    ensures Refreshed(b.records, rs, b.nextVersion)
  {
    ApplyStep(b, cmd);
    assert AllBelow(b.records, b.nextVersion);
    StepRefreshes(b, rs);
  }

  lemma {:induction false} DoKeeps(w: World, cmd: Command)
    requires WorldOk(w)
    ensures WorldOk(WithBooks(w, Apply(w.books, cmd).books))
  {
    ApplyKeeps(w.books, cmd);
    VersionsOnlyRise(w.books, cmd);
    CommandKeepsApart(w.tenant, w.books, cmd);
    CommandKeepsHistory(w.tables, w.client.records, w.cursor, w.books, cmd, Apply(w.books, cmd).books.records);
  }

  // ---- the tenant's row --------------------------------------------------------

  lemma {:induction false} TenantWritten(tenant: seq<Settings>, row: Settings, b: Books, ts: seq<seq<Row>>)
    requires ts == FeedTables(tenant, b) && Apart(ts) && Under(ts, b.nextVersion) && row.version == b.nextVersion
    ensures Apart(FeedTables([row], b))
  {
    RedrawKeepsApart(ts, 0, TenantRows([row]), b.nextVersion);
    assert FeedTables([row], b) == ts[0 := TenantRows([row])];
  }

  function Burnt(b: Books): Books {
    b.(nextVersion := b.nextVersion + 1)
  }

  lemma {:induction false} BurningBurns(b: Books)
    ensures Apply(b, BurnVersions(1)).books == Burnt(b)
  {
  }

  lemma {:induction false} TenantReplaced(w: World, b: Books, row: Settings)
    requires WorldOk(w) && w.books == Burnt(b) && row.version == b.nextVersion && Apart(FeedTables([row], b))
    ensures WorldOk(w.(tenant := [row]))
  {
    assert FeedTables([row], w.books) == FeedTables([row], b);
  }

  lemma {:induction false} TouchTenantKeeps(w: World, burnt: World, row: Settings)
    requires WorldOk(w) && WorldOk(burnt) && burnt.books == Burnt(w.books) && row.version == w.books.nextVersion
    ensures WorldOk(burnt.(tenant := [row]))
  {
    var ts := FeedTables(w.tenant, w.books);
    RowsUnder(w.tenant, w.books);
    TenantWritten(w.tenant, row, w.books, ts);
    TenantReplaced(burnt, w.books, row);
  }

  // ---- a pull ------------------------------------------------------------------

  /** The record rows of a page are the table's own rows. */
  ghost predicate OwnRecords(rs: seq<Record>, page: seq<Row>) {
    forall x :: x in page && x.data.RecordDoc? ==> x.id < |rs| && x == RecordRow(rs, x.id)
  }

  lemma {:induction false} ReceivedRecords(client: Client, x: Row)
    ensures Received(client, x.id, x.data).records
            == if x.data.RecordDoc? then client.records[x.id := x.data.record] else client.records
  {
  }

  lemma {:induction false} AppliedHolds(rs: seq<Record>, client: Client, page: seq<Row>, i: nat)
    requires OwnRecords(rs, page)
    ensures var s := Applied(client, page).records;
            if i < |rs| && RecordRow(rs, i) in page then i in s && s[i] == rs[i]
            else (i in s <==> i in client.records) && (i in s ==> s[i] == client.records[i])
  {
    if page != [] {
      var last: nat := |page| - 1;
      assert page == page[..last] + [page[last]];
      ReceivedRecords(Applied(client, page[..last]), page[last]);
      AppliedHolds(rs, client, page[..last], i);
    }
  }

  lemma {:induction false} RecordRowIsFed(w: World, i: nat)
    requires i < |w.books.records|
    ensures RecordRow(w.books.records, i) in Snapshot(w)
  {
    var ts := FeedTables(w.tenant, w.books);
    assert ts[2][i] == RecordRow(w.books.records, i);
    Feed.InFlatten(ts, 2, RecordRow(w.books.records, i));
  }

  lemma {:induction false} FedRecordIsOwn(w: World, x: Row)
    requires x in Snapshot(w)
    ensures x.data.RecordDoc? ==> x.id < |w.books.records| && x == RecordRow(w.books.records, x.id)
  {
    var ts := FeedTables(w.tenant, w.books);
    var k := Feed.FromFlatten(ts, x);
    var i :| 0 <= i < |ts[k]| && ts[k][i] == x;
  }

  /** A page of the snapshot leaves the client with every row up to its own cursor. */
  lemma {:induction false} PageFollows(
      tables: seq<seq<Record>>, rs: seq<Record>, client: Client, since: nat, page: seq<Row>, snapshot: seq<Row>)
    requires tables != [] && tables[|tables| - 1] == rs && FollowsFeed(tables, client.records, since)
    requires OwnRecords(rs, page) && Feed.IsPage((set x | x in snapshot), since, page)
    requires forall i :: 0 <= i < |rs| ==> RecordRow(rs, i) in snapshot
    requires since <= Feed.CursorAfter(page, since) && forall x :: x in page ==>
               x.version <= Feed.CursorAfter(page, since)
    ensures FollowsFeed(tables, Applied(client, page).records, Feed.CursorAfter(page, since))
  {
    var s, cursor := Applied(client, page).records, Feed.CursorAfter(page, since);
    forall i | i in s ensures s[i].version <= cursor && IsPastCopy(tables, i, s[i]) {
      AppliedHolds(rs, client, page, i);
      if i < |rs| && RecordRow(rs, i) in page {
        assert CopiedAt(tables, i, s[i], |tables| - 1);
      }
    }
    forall i | 0 <= i < |rs| && rs[i].version <= cursor ensures i in s && s[i] == rs[i] {
      AppliedHolds(rs, client, page, i);
      if since < rs[i].version {
        assert RecordRow(rs, i) in page;
      } else {
        assert RecordRow(rs, i) !in page;
      }
    }
  }

  lemma {:induction false} PageIsOwn(w: World, limit: nat)
    requires 1 <= limit
    ensures OwnRecords(w.books.records, Feed.PageOf(Snapshot(w), w.cursor, limit))
  {
    forall x | x in Feed.PageOf(Snapshot(w), w.cursor, limit) && x.data.RecordDoc?
      ensures x.id < |w.books.records| && x == RecordRow(w.books.records, x.id)
    {
      FedRecordIsOwn(w, x);
    }
  }

  lemma {:induction false} PageEndsAtItsCursor(page: seq<Row>, since: nat)
    requires Feed.Ascending(page) && forall x :: x in page ==> since < x.version
    ensures since <= Feed.CursorAfter(page, since)
    ensures forall x :: x in page ==> x.version <= Feed.CursorAfter(page, since)
    ensures page != [] ==> page[|page| - 1] in page && page[|page| - 1].version == Feed.CursorAfter(page, since)
  {
  }

  lemma {:induction false} PulledFollows(w: World, n: nat, page: seq<Row>)
    requires WorldOk(w) && 1 <= n && page == Feed.PageOf(Snapshot(w), w.cursor, n)
    ensures FollowsFeed(w.tables, Applied(w.client, page).records, Feed.CursorAfter(page, w.cursor))
  {
    ApartIsDistinct(FeedTables(w.tenant, w.books));
    Feed.PageHasNoGap(Snapshot(w), w.cursor, n);
    PageIsOwn(w, n);
    PageEndsAtItsCursor(page, w.cursor);
    forall i | 0 <= i < |w.books.records| ensures RecordRow(w.books.records, i) in Snapshot(w) {
      RecordRowIsFed(w, i);
    }
    PageFollows(w.tables, w.books.records, w.client, w.cursor, page, Snapshot(w));
  }

  lemma {:induction false} ClientMoved(w: World, client: Client, cursor: nat)
    requires WorldOk(w) && FollowsFeed(w.tables, client.records, cursor) && cursor < w.books.nextVersion
    ensures WorldOk(w.(client := client, cursor := cursor))
  {
  }

  lemma {:induction false} PullKeeps(w: World, limit: int)
    requires WorldOk(w)
    ensures WorldOk(Step(w, Pull(limit)))
  {
    var page := Feed.PageOf(Snapshot(w), w.cursor, Feed.Clamp(limit));
    PulledFollows(w, Feed.Clamp(limit), page);
    CursorStaysBelow(w, page);
    ClientMoved(w, Applied(w.client, page), Feed.CursorAfter(page, w.cursor));
  }

  lemma {:induction false} CursorStaysBelow(w: World, page: seq<Row>)
    requires w.cursor < w.books.nextVersion && VersionsOk(w.books)
    requires AllUnder(w.tenant, w.books.nextVersion)
    requires forall x :: x in page ==> x in Snapshot(w)
    ensures Feed.CursorAfter(page, w.cursor) < w.books.nextVersion
  {
    if page != [] {
      var x := page[|page| - 1];
      assert x in page;
      var ts := FeedTables(w.tenant, w.books);
      RowsUnder(w.tenant, w.books);
      var k := Feed.FromFlatten(ts, x);
    }
  }

  // ---- every play --------------------------------------------------------------

  lemma {:induction false} StepKeeps(w: World, e: FeedEvent)
    requires WorldOk(w)
    ensures WorldOk(Step(w, e))
  {
    match e
    case Do(cmd) => DoKeeps(w, cmd);
    case TouchTenant(details) =>
      DoKeeps(w, BurnVersions(1));
      BurningBurns(w.books);
      TouchTenantKeeps(w, WithBooks(w, Apply(w.books, BurnVersions(1)).books), Settings(details, w.books.nextVersion));
    case Pull(limit) => PullKeeps(w, limit);
  }

  lemma {:induction false} NothingIsApart(b: Books)
    requires b.customers == [] && b.records == [] && b.payments == [] && b.statements == []
    ensures Apart(FeedTables([], b))
  {
  }

  lemma {:induction false} EmptyTable(rs: seq<Record>)
    requires rs == []
    ensures TableOrder(rs) && Chained(rs) && Final(rs, rs)
  {
  }

  lemma {:induction false} NothingIsHistory(tables: seq<seq<Record>>)
    requires |tables| == 1 && tables[0] == []
    ensures IsHistory(tables)
  {
    EmptyTable(tables[0]);
    forall n, m | 0 <= n <= m < |tables| ensures Final(tables[n], tables[m]) {
      assert n == 0 && m == 0;
    }
  }

  lemma {:induction false} NothingIsFollowed(tables: seq<seq<Record>>, store: map<nat, Record>)
    requires |tables| == 1 && tables[0] == [] && store == map[]
    ensures FollowsFeed(tables, store, 0)
  {
  }

  lemma {:induction false} EmptyWorldOk(w: World)
    requires Inv(w.books) && w.books.records == [] && w.books.payments == [] && w.books.statements == []
    requires w.books.customers == [] && w.tenant == [] && w.tables == [[]] && w.client.records == map[] && w.cursor == 0
    requires 0 < w.books.nextVersion
    ensures WorldOk(w)
  {
    NothingIsApart(w.books);
    NothingIsHistory(w.tables);
    NothingIsFollowed(w.tables, w.client.records);
  }

  lemma {:induction false} BeginOk(today: Date, startDay: StartDay)
    ensures WorldOk(Begin(today, startDay))
  {
    EmptyBooksHold(Initial(today, startDay));
    EmptyWorldOk(Begin(today, startDay));
  }

  lemma {:induction false} AfterKeeps(w: World, events: seq<FeedEvent>)
    requires WorldOk(w)
    ensures WorldOk(After(w, events))
  {
    if events != [] {
      AfterKeeps(w, events[..|events| - 1]);
      StepKeeps(After(w, events[..|events| - 1]), events[|events| - 1]);
    }
  }

  /** Whatever happens, the client has everything up to its cursor. */
  lemma {:induction false} PlayFollows(today: Date, startDay: StartDay, events: seq<FeedEvent>)
    ensures WorldOk(Play(today, startDay, events))
  {
    BeginOk(today, startDay);
    AfterKeeps(Begin(today, startDay), events);
  }

  /** At every cursor and every page boundary the client holds at most one ACTIVE record per
      customer and date, across corrections, voids and re-records. */
  lemma {:induction false} OneActivePerSlot(today: Date, startDay: StartDay, events: seq<FeedEvent>, i: nat, j: nat)
    requires var store := Play(today, startDay, events).client.records;
             i in store && j in store && i != j && store[i].status == Active && store[j].status == Active
    ensures !SameSlot(Play(today, startDay, events).client.records[i], Play(today, startDay, events).client.records[j])
  {
    var w := Play(today, startDay, events);
    PlayFollows(today, startDay, events);
    ActiveCopiesAreApart(w.tables, w.client.records, w.cursor, i, j);
  }

  /** A client that holds a replacement also holds the supersession it explains. */
  lemma {:induction false} ReplacementBringsSupersession(
      today: Date, startDay: StartDay, events: seq<FeedEvent>, j: nat)
    requires var store := Play(today, startDay, events).client.records; j in store && store[j].corrects.Some?
    ensures var store := Play(today, startDay, events).client.records;
            var i := store[j].corrects.value;
            i in store && store[i].status == Superseded && store[i].supersededBy == Some(j)
            && store[i].version < store[j].version
  {
    var w := Play(today, startDay, events);
    PlayFollows(today, startDay, events);
    ReplacementCopyExplains(w.tables, w.client.records, w.cursor, j);
  }

  lemma {:induction false} CopyIsCurrentOrEnding(tables: seq<seq<Record>>, copy: Record, i: nat)
    requires IsHistory(tables) && IsPastCopy(tables, i, copy)
    ensures var rs := tables[|tables| - 1];
            i < |rs| && SameSlot(copy, rs[i]) && copy.corrects == rs[i].corrects
            && (copy == rs[i] || (copy.status == Active && rs[i].status != Active && copy.version < rs[i].version))
  {
    var n: nat :| CopiedAt(tables, i, copy, n);
    assert Final(tables[n], tables[|tables| - 1]);
  }

  /** The client's copy of a record is the record's own, at the same version, or the record
      has since ended above the cursor. */
  lemma {:induction false} CopiesAreCurrentOrEnding(today: Date, startDay: StartDay, events: seq<FeedEvent>, i: nat)
    requires i < |Play(today, startDay, events).books.records|
    ensures var w := Play(today, startDay, events);
            var r := w.books.records[i];
            (r.version <= w.cursor ==> i in w.client.records && w.client.records[i] == r)
            && (w.cursor < r.version && i in w.client.records ==>
                  w.client.records[i].status == Active && r.status != Active && SameSlot(w.client.records[i], r))
  {
    var w := Play(today, startDay, events);
    PlayFollows(today, startDay, events);
    CopyInStore(w.tables, w.client.records, w.cursor, i);
  }

  lemma {:induction false} CopyInStore(tables: seq<seq<Record>>, store: map<nat, Record>, cursor: nat, i: nat)
    requires IsHistory(tables) && FollowsFeed(tables, store, cursor) && i < |tables[|tables| - 1]|
    ensures var r := tables[|tables| - 1][i];
            (r.version <= cursor ==> i in store && store[i] == r)
            && (cursor < r.version && i in store ==>
                  store[i].status == Active && r.status != Active && SameSlot(store[i], r))
  {
    if i in store {
      CopyIsCurrentOrEnding(tables, store[i], i);
    }
  }
}
