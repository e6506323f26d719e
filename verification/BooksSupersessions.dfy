/** When a client that has seen a supersession has seen its successor: exactly when its
    cursor has passed it, which a page boundary can come right before. */
module BooksSupersessions {
  import opened Outcomes
  import opened Calendar
  import opened Money
  import opened Records
  import opened Commission
  import opened Books
  import opened BooksInvariants
  import opened BooksRuns
  import opened BooksAcceptance
  import opened BooksHistory
  import opened BooksFeed
  import opened BooksClients
  import Feed

  // ---- exactly when the successor is held --------------------------------------

  /** A held SUPERSEDED copy is the record itself, and it names its successor. */
  lemma {:induction false} HeldSupersessionIsCurrent(w: World, i: nat)
    requires WorldOk(w) && i in w.client.records && w.client.records[i].status == Superseded
    ensures i < |w.books.records| && w.client.records[i] == w.books.records[i]
    ensures w.client.records[i].version <= w.cursor
    ensures w.client.records[i].supersededBy.Some? && w.client.records[i].supersededBy.value < |w.books.records|
    ensures var j := w.client.records[i].supersededBy.value;
            i < j && w.books.records[j].corrects == Some(i) && SameSlot(w.books.records[i], w.books.records[j])
            && w.books.records[i].version < w.books.records[j].version
  {
    CopyIsCurrentOrEnding(w.tables, w.client.records[i], i);
    assert TableOrder(w.books.records) && Chained(w.books.records);
  }

  /** While the successor lives, it stands right after the supersession. */
  lemma {:induction false} LiveSuccessorHeldExactly(w: World, i: nat, j: nat)
    requires WorldOk(w) && i in w.client.records && w.client.records[i].status == Superseded
    requires w.client.records[i].supersededBy == Some(j)
    requires j < |w.books.records| && w.books.records[j].status == Active
    ensures j in w.client.records <==> w.books.records[j].version <= w.cursor
    ensures j in w.client.records <==> w.client.records[i].version < w.cursor
    ensures j in w.client.records ==> w.client.records[j] == w.books.records[j]
  {
    HeldSupersessionIsCurrent(w, i);
    assert w.books.records[j].version == w.books.records[i].version + 1 by {
      assert SuccessorsFollow(w.books.records);
    }
    CopyInStore(w.tables, w.client.records, w.cursor, j);
  }

  /** Once it has ended, its end is held exactly from its own version on; before that the
      client has it as it was while it lived, or not at all. */
  lemma {:induction false} EndedSuccessorHeldExactly(w: World, i: nat, j: nat)
    requires WorldOk(w) && i in w.client.records && w.client.records[i].status == Superseded
    requires w.client.records[i].supersededBy == Some(j)
    requires j < |w.books.records| && w.books.records[j].status != Active
    ensures (j in w.client.records && w.client.records[j] == w.books.records[j])
            <==> w.books.records[j].version <= w.cursor
    ensures j in w.client.records && w.cursor < w.books.records[j].version ==>
              w.client.records[j].status == Active
              && w.client.records[i].version < w.client.records[j].version <= w.cursor
  {
    HeldSupersessionIsCurrent(w, i);
    CopyInStore(w.tables, w.client.records, w.cursor, j);
    if j in w.client.records {
      ReplacementOfPastCopy(w, i, j);
      assert w.client.records[j].version <= w.cursor;
    }
  }

  lemma {:induction false} ReplacementOfPastCopy(w: World, i: nat, j: nat)
    requires WorldOk(w) && i in w.client.records && j in w.client.records && j < |w.books.records|
             && w.books.records[j].corrects == Some(i)
    ensures w.client.records[i].version < w.client.records[j].version
  {
    CopyIsCurrentOrEnding(w.tables, w.client.records[j], j);
    ReplacementCopyExplains(w.tables, w.client.records, w.cursor, j);
  }

  /** Over every play: what a client that holds a supersession holds of its successor. */
  lemma {:induction false} SuccessorHeldExactly(today: Date, startDay: StartDay, events: seq<FeedEvent>, i: nat)
    requires var store := Play(today, startDay, events).client.records; i in store && store[i].status == Superseded
    ensures var w := Play(today, startDay, events);
            w.client.records[i].supersededBy.Some? && w.client.records[i].supersededBy.value < |w.books.records|
            && var j := w.client.records[i].supersededBy.value;
               var successor := w.books.records[j];
               ((j in w.client.records && w.client.records[j] == successor) <==> successor.version <= w.cursor)
               && (successor.status == Active ==>
                     (j in w.client.records <==> successor.version <= w.cursor)
                       && (j in w.client.records <==> w.client.records[i].version < w.cursor))
               && (successor.status != Active && w.cursor < successor.version && j in w.client.records ==>
                     w.client.records[j].status == Active
                     && w.client.records[i].version < w.client.records[j].version <= w.cursor)
  {
    var w := Play(today, startDay, events);
    PlayFollows(today, startDay, events);
    HeldSupersessionIsCurrent(w, i);
    var j := w.client.records[i].supersededBy.value;
    if w.books.records[j].status == Active {
      LiveSuccessorHeldExactly(w, i, j);
    } else {
      EndedSuccessorHeldExactly(w, i, j);
    }
  }

  // ---- a page boundary can come right before it --------------------------------

  function Pulls(n: nat): (pulls: seq<FeedEvent>)
    ensures |pulls| == n && forall k :: 0 <= k < n ==> pulls[k] == Pull(1)
  {
    if n == 0 then [] else Pulls(n - 1) + [Pull(1)]
  }

  /** A page of one row, when something is newer than the cursor. */
  lemma {:induction false} OneRowPage(w: World, x: Row, page: seq<Row>)
    requires WorldOk(w) && x in Snapshot(w) && w.cursor < x.version && page == Feed.PageOf(Snapshot(w), w.cursor, 1)
    ensures w.cursor < Feed.CursorAfter(page, w.cursor) <= x.version
  {
    ApartIsDistinct(FeedTables(w.tenant, w.books));
    Feed.PageHasNoGap(Snapshot(w), w.cursor, 1);
    Feed.PageIsPrefix(Snapshot(w), w.cursor, 1);
  }

  lemma {:induction false} PullMovesTheClient(w: World, w': World, page: seq<Row>)
    requires w' == Step(w, Pull(1)) && page == Feed.PageOf(Snapshot(w), w.cursor, 1)
    ensures w' == w.(client := Applied(w.client, page), cursor := Feed.CursorAfter(page, w.cursor))
    ensures Snapshot(w') == Snapshot(w)
  {
  }

  lemma {:induction false} PullApproaches(w: World, x: Row, w': World)
    requires WorldOk(w) && x in Snapshot(w) && w.cursor < x.version && w' == Step(w, Pull(1))
    ensures WorldOk(w')
    ensures w.cursor < w'.cursor <= x.version && Snapshot(w') == Snapshot(w) && w'.books == w.books
  {
    var page := Feed.PageOf(Snapshot(w), w.cursor, 1);
    PullKeeps(w, 1);
    OneRowPage(w, x, page);
    PullMovesTheClient(w, w', page);
  }

  /** Pulling one row at a time stops at every row on the way. */
  lemma {:induction false} PullsReach(w: World, x: Row) returns (n: nat)
    requires WorldOk(w) && x in Snapshot(w) && w.cursor < x.version
    ensures var w' := After(w, Pulls(n)); w'.cursor == x.version && w'.books == w.books
    decreases x.version - w.cursor
  {
    var w1 := Step(w, Pull(1));
    PullApproaches(w, x, w1);
    if w1.cursor == x.version {
      n := 1;
      FirstPull(w, 0, 1);
    } else {
      var m := PullsReach(w1, x);
      n := m + 1;
      FirstPull(w, m, n);
    }
  }

  lemma {:induction false} FirstPull(w: World, m: nat, n: nat)
    requires n == m + 1
    ensures After(w, Pulls(n)) == After(Step(w, Pull(1)), Pulls(m))
  {
    assert Pulls(n)[..m] == Pulls(m);
    if m == 0 {
      assert Pulls(1) == [Pull(1)];
    } else {
      var k: nat := m - 1;
      FirstPull(w, k, m);
      assert Pulls(m)[..k] == Pulls(k);
    }
  }

  /** After any accepted correction, wherever the client stands, pulling one row at a time
      comes to a page that ends between the supersession and its successor. */
  lemma {:induction false} SupersessionSeenAlone(
      today: Date, startDay: StartDay, events: seq<FeedEvent>, cmd: Command, w: World) returns (n: nat)
    requires w == Play(today, startDay, events) && cmd.CorrectServiceCmd? && Apply(w.books, cmd).error.None?
    ensures var seen := After(Step(w, Do(cmd)), Pulls(n));
            var i, j := cmd.record, |w.books.records|;
            i in seen.client.records && seen.client.records[i].status == Superseded
            && seen.client.records[i].supersededBy == Some(j)
            && j < |seen.books.records| && seen.books.records[j].status == Active && j !in seen.client.records
  {
    PlayFollows(today, startDay, events);
    n := SeenAloneFrom(w, cmd, Step(w, Do(cmd)));
  }

  lemma {:induction false} AcceptedCorrection(b: Books, cmd: Command)
    requires Inv(b) && cmd.CorrectServiceCmd? && Apply(b, cmd).error.None?
    ensures var rs, i := Apply(b, cmd).books.records, cmd.record;
            i < |b.records| && |rs| == |b.records| + 1 && rs[i].status == Superseded && rs[i].version == b.nextVersion
            && rs[i].supersededBy == Some(|b.records|) && rs[|b.records|].status == Active
  {
    CorrectionAcceptedExactly(b, cmd.record, cmd.kind, cmd.quantity, cmd.blankReason);
    CorrectionReplaces(b, cmd.record, cmd.kind, cmd.quantity, cmd.blankReason);
  }

  lemma {:induction false} SeenAloneFrom(w: World, cmd: Command, corrected: World) returns (n: nat)
    requires WorldOk(w) && cmd.CorrectServiceCmd? && Apply(w.books, cmd).error.None? && corrected == Step(w, Do(cmd))
    ensures var seen := After(corrected, Pulls(n));
            var i, j := cmd.record, |w.books.records|;
            i in seen.client.records && seen.client.records[i].status == Superseded
            && seen.client.records[i].supersededBy == Some(j)
            && j < |seen.books.records| && seen.books.records[j].status == Active && j !in seen.client.records
  {
    var i: nat := cmd.record;
    AcceptedCorrection(w.books, cmd);
    DoKeeps(w, cmd);
    var rs := corrected.books.records;
    RecordRowIsFed(corrected, i);
    n := PullsReach(corrected, RecordRow(rs, i));
    var seen := After(corrected, Pulls(n));
    AfterKeeps(corrected, Pulls(n));
    CursorAtSupersession(seen, i, |w.books.records|);
  }

  lemma {:induction false} CursorAtSupersession(w: World, i: nat, j: nat)
    requires WorldOk(w) && i < |w.books.records| && w.books.records[i].version == w.cursor
    requires w.books.records[i].status == Superseded && w.books.records[i].supersededBy == Some(j)
    requires j < |w.books.records| && w.books.records[j].status == Active
    ensures i in w.client.records && w.client.records[i] == w.books.records[i] && j !in w.client.records
  {
    LiveSuccessorHeldExactly(w, i, j);
  }

  // ---- such a play -------------------------------------------------------------

  /** A skipped day of a customer, recorded by mistake. */
  lemma {:induction false} SkipRecorded(b: Books, set0: Books)
    requires Inv(set0) && b.records == [] && b.cycles == [] && set0.records == b.records && set0.cycles == b.cycles
    requires 0 < |set0.customers| && set0.customers[0].active && set0.customers[0].unitPrice == 5
    ensures var x := RecordService(set0, 0, Skip, None, None).books;
            |x.records| == 1 && x.records[0].status == Active && x.records[0].unitPrice == 5 && x.cycles == []
  {
    ServiceAcceptedExactly(set0, 0, Skip, None, None);
    assert Recordable(set0, 0, Skip, None, set0.today);
    assert !SlotTaken(set0.records, 0, set0.today);
  }

  lemma {:induction false} FirstCustomer(b: Books, row: Customer, x: Books)
    requires Inv(b) && x == PutCustomer(b, 0, row).books
    ensures Inv(x) && 0 < |x.customers| && x.customers[0] == row.(version := b.nextVersion)
    ensures x.records == b.records && x.cycles == b.cycles
  {
    PutCustomerKeeps(b, 0, row);
  }

  lemma {:induction false} FirstCustomerSkips(b: Books, row: Customer, c1: Command, c2: Command)
    requires Inv(b) && b.records == [] && b.cycles == [] && row.active && row.unitPrice == 5
    requires c1 == SetCustomer(0, row) && c2 == RecordServiceCmd(0, Skip, None, None)
    ensures var x := Apply(Apply(b, c1).books, c2).books;
            |x.records| == 1 && x.records[0].status == Active && x.records[0].unitPrice == 5 && x.cycles == []
  {
    var set0 := PutCustomer(b, 0, row).books;
    FirstCustomer(b, row, set0);
    SkipRecorded(b, set0);
  }

  function SkipToService(): Command {
    CorrectServiceCmd(0, Service, Some(Decimal(1, 0)), false)
  }

  /** It can be corrected to a delivery. */
  lemma {:induction false} SkipCorrected(b: Books)
    requires Inv(b) && |b.records| == 1 && b.records[0].status == Active && b.records[0].unitPrice == 5
             && b.cycles == []
    ensures Apply(b, SkipToService()).error.None?
  {
    assert Pow10(0) == 1;
    assert QuantizeQuantity(Decimal(1, 0)).Ok?;
    CorrectionAcceptedExactly(b, 0, Service, Some(Decimal(1, 0)), false);
  }

  lemma {:induction false} TwoCommands(w: World, c1: Command, c2: Command, x: World)
    requires x == After(w, [Do(c1), Do(c2)])
    ensures x.books == Apply(Apply(w.books, c1).books, c2).books
  {
    PlayOfTwo(w, Do(c1), Do(c2));
  }

  lemma {:induction false} SkipPlay(w: World, row: Customer, c1: Command, c2: Command, x: World)
    requires WorldOk(w) && w.books.records == [] && w.books.cycles == [] && row.active && row.unitPrice == 5
    requires c1 == SetCustomer(0, row) && c2 == RecordServiceCmd(0, Skip, None, None)
    requires x == After(w, [Do(c1), Do(c2)])
    ensures Inv(x.books) && |x.books.records| == 1 && x.books.records[0].status == Active
    ensures x.books.records[0].unitPrice == 5 && x.books.cycles == []
  {
    AfterKeeps(w, [Do(c1), Do(c2)]);
    TwoCommands(w, c1, c2, x);
    FirstCustomerSkips(w.books, row, c1, c2);
  }

  lemma {:induction false} SkipPlayFrom(w: World, row: Customer) returns (start: seq<FeedEvent>, cmd: Command)
    requires WorldOk(w) && w.books.records == [] && w.books.cycles == [] && row.active && row.unitPrice == 5
    ensures cmd.CorrectServiceCmd? && cmd.record == 0
    ensures |After(w, start).books.records| == 1 && Apply(After(w, start).books, cmd).error.None?
  {
    start, cmd := [Do(SetCustomer(0, row)), Do(RecordServiceCmd(0, Skip, None, None))], SkipToService();
    SkipPlay(w, row, SetCustomer(0, row), RecordServiceCmd(0, Skip, None, None), After(w, start));
    SkipCorrected(After(w, start).books);
  }

  lemma {:induction false} CorrectableSkip(today: Date, startDay: StartDay)
    returns (start: seq<FeedEvent>, cmd: Command)
    ensures |Play(today, startDay, start).books.records| == 1
    ensures cmd.CorrectServiceCmd? && cmd.record == 0 && Apply(Play(today, startDay, start).books, cmd).error.None?
  {
    BeginOk(today, startDay);
    var row := Customer(5, true, "", 0);
    start, cmd := SkipPlayFrom(Begin(today, startDay), row);
  }

  /** So from nothing there is a play after which a client holds a supersession, and not
      the live successor it names. */
  lemma {:induction false} SupersessionIsSeenAlone(today: Date, startDay: StartDay) returns (events: seq<FeedEvent>)
    ensures var w := Play(today, startDay, events);
            0 in w.client.records && w.client.records[0].status == Superseded
            && w.client.records[0].supersededBy == Some(1)
            && 1 < |w.books.records| && w.books.records[1].status == Active && 1 !in w.client.records
  {
    var start, cmd := CorrectableSkip(today, startDay);
    var n := SupersessionSeenAlone(today, startDay, start, cmd, Play(today, startDay, start));
    events := (start + [Do(cmd)]) + Pulls(n);
    CorrectAndPull(Begin(today, startDay), start, cmd, Pulls(n));
  }

  lemma {:induction false} CorrectAndPull(w: World, start: seq<FeedEvent>, cmd: Command, pulls: seq<FeedEvent>)
    ensures After(w, (start + [Do(cmd)]) + pulls) == After(Step(After(w, start), Do(cmd)), pulls)
  {
    AfterJoin(w, start + [Do(cmd)], pulls, (start + [Do(cmd)]) + pulls);
    AfterOneMore(w, start, Do(cmd));
  }

  lemma {:induction false} PlayOfOne(w: World, e: FeedEvent)
    ensures After(w, [e]) == Step(w, e)
  {
    assert [e][..0] == [];
  }

  lemma {:induction false} PlayOfTwo(w: World, d: FeedEvent, e: FeedEvent)
    ensures After(w, [d, e]) == Step(Step(w, d), e)
  {
    assert [d, e][..1] == [d];
    PlayOfOne(w, d);
  }
}
