/** What a client holds of every table of one tenant's feed: over every play of commands and
    pulls, at every cursor and every page limit, said of the books' own tables. */
module BooksCopies {
  import opened Outcomes
  import opened Calendar
  import opened Records
  import opened Payments
  import opened Commission
  import opened Books
  import opened BooksInvariants
  import opened BooksRuns
  import opened BooksFeed
  import opened BooksClients
  import Feed

  // ---- documents held ----------------------------------------------------------

  ghost predicate Holds(client: Client, id: nat, document: Document) {
    match document
    case TenantDoc(settings) => id in client.tenant && client.tenant[id] == settings
    case CustomerDoc(customer) => id in client.customers && client.customers[id] == customer
    case RecordDoc(record) => id in client.records && client.records[id] == record
    case PaymentDoc(payment) => id in client.payments && client.payments[id] == payment
    case StatementDoc(statement) => id in client.statements && client.statements[id] == statement
  }

  predicate SameTable(d: Document, e: Document) {
    match d
    case TenantDoc(_) => e.TenantDoc?
    case CustomerDoc(_) => e.CustomerDoc?
    case RecordDoc(_) => e.RecordDoc?
    case PaymentDoc(_) => e.PaymentDoc?
    case StatementDoc(_) => e.StatementDoc?
  }

  /** Rows of one document are one row. */
  ghost predicate OneRowEach(rows: seq<Row>) {
    forall x, y :: x in rows && y in rows && x.id == y.id && SameTable(x.data, y.data) ==> x == y
  }

  /** A received row is held, and so is any other document. */
  lemma {:induction false} ReceivedHolds(client: Client, y: Row, id: nat, document: Document)
    ensures Holds(Received(client, y.id, y.data), id, document)
            <==> if y.id == id && SameTable(y.data, document) then y.data == document else Holds(client, id, document)
  {
    match y.data
    case TenantDoc(_) =>
    case CustomerDoc(_) =>
    case RecordDoc(_) =>
    case PaymentDoc(_) =>
    case StatementDoc(_) =>
  }

  /** Whatever the page brings of a document or, if it brings nothing, what was held before. */
  lemma {:induction false} AppliedHoldsRow(client: Client, page: seq<Row>, x: Row)
    requires x in page || Holds(client, x.id, x.data)
    requires forall y :: y in page && y.id == x.id && SameTable(y.data, x.data) ==> y == x
    ensures Holds(Applied(client, page), x.id, x.data)
  {
    if page != [] {
      var last: nat := |page| - 1;
      assert page == page[..last] + [page[last]];
      ReceivedHolds(Applied(client, page[..last]), page[last], x.id, x.data);
      if !(page[last].id == x.id && SameTable(page[last].data, x.data)) {
        AppliedHoldsRow(client, page[..last], x);
      }
    }
  }

  /** And nothing else is held. */
  lemma {:induction false} HeldCameFrom(client: Client, page: seq<Row>, id: nat, document: Document)
    requires Holds(Applied(client, page), id, document)
    ensures Holds(client, id, document) || exists x :: x in page && x.id == id && x.data == document
  {
    if page != [] {
      var last: nat := |page| - 1;
      ReceivedHolds(Applied(client, page[..last]), page[last], id, document);
      if !(page[last].id == id && page[last].data == document) {
        HeldCameFrom(client, page[..last], id, document);
      }
    }
  }

  // ---- the snapshot ------------------------------------------------------------

  /** A row of the feed is its table's own, in its place. */
  ghost predicate IsOwnRow(tenant: seq<Settings>, b: Books, x: Row) {
    match x.data
    case TenantDoc(t) => x.id < |tenant| && t == tenant[x.id] && x.version == t.version
    case CustomerDoc(c) => x.id < |b.customers| && c == b.customers[x.id] && x.version == c.version
    case RecordDoc(r) => x.id < |b.records| && r == b.records[x.id] && x.version == r.version
    case PaymentDoc(p) => x.id < |b.payments| && p == b.payments[x.id] && x.version == p.version
    case StatementDoc(s) => x.id < |b.statements| && s == b.statements[x.id] && x.version == s.version
  }

  lemma {:induction false} FedRowsAreOwn(w: World, x: Row)
    ensures x in Snapshot(w) <==> IsOwnRow(w.tenant, w.books, x)
  {
    var ts := FeedTables(w.tenant, w.books);
    if x in Snapshot(w) {
      var k := Feed.FromFlatten(ts, x);
      var i :| 0 <= i < |ts[k]| && ts[k][i] == x;
    }
    if IsOwnRow(w.tenant, w.books, x) {
      var k: nat := match x.data
        case TenantDoc(_) => 0 case CustomerDoc(_) => 1 case RecordDoc(_) => 2 case PaymentDoc(_) => 3
        case StatementDoc(_) => 4;
      assert ts[k][x.id] == x;
      Feed.InFlatten(ts, k, x);
    }
  }

  lemma {:induction false} OneRowPerDocument(w: World)
    ensures OneRowEach(Snapshot(w))
  {
    forall x, y | x in Snapshot(w) && y in Snapshot(w) && x.id == y.id && SameTable(x.data, y.data) ensures x == y {
      FedRowsAreOwn(w, x);
      FedRowsAreOwn(w, y);
    }
  }

  // ---- everything up to the cursor is held -------------------------------------

  ghost predicate HoldsUpTo(client: Client, rows: seq<Row>, cursor: nat) {
    forall x :: x in rows && x.version <= cursor ==> Holds(client, x.id, x.data)
  }

  /** A table redrawn at fresh versions: what is older was there before. */
  lemma {:induction false} OlderRowsWereThere(ts: seq<seq<Row>>, ts': seq<seq<Row>>, version: nat, x: Row)
    requires OneMoves(ts, ts', version) && x in Feed.Flatten(ts') && x.version < version
    ensures x in Feed.Flatten(ts)
  {
    var i := Feed.FromFlatten(ts', x);
    assert x in ts[i];
    Feed.InFlatten(ts, i, x);
  }

  lemma {:induction false} RedrawKeepsHeld(
      client: Client, ts: seq<seq<Row>>, ts': seq<seq<Row>>, version: nat, cursor: nat)
    requires OneMoves(ts, ts', version) && cursor < version && HoldsUpTo(client, Feed.Flatten(ts), cursor)
    ensures HoldsUpTo(client, Feed.Flatten(ts'), cursor)
  {
    forall x | x in Feed.Flatten(ts') && x.version <= cursor ensures Holds(client, x.id, x.data) {
      OlderRowsWereThere(ts, ts', version, x);
    }
  }

  lemma {:induction false} PageKeepsHeld(client: Client, rows: seq<Row>, since: nat, page: seq<Row>)
    requires OneRowEach(rows) && Feed.IsPage((set x | x in rows), since, page) && HoldsUpTo(client, rows, since)
    ensures HoldsUpTo(Applied(client, page), rows, Feed.CursorAfter(page, since))
  {
    forall x | x in rows && x.version <= Feed.CursorAfter(page, since)
      ensures Holds(Applied(client, page), x.id, x.data)
    {
      AppliedHoldsRow(client, page, x);
    }
  }

  // ---- and nothing that the tables did not have --------------------------------

  /** A payment and a copy of it: the same, or the payment has been voided since. */
  ghost predicate IsPaymentCopy(copy: Payment, p: Payment) {
    copy == p
    || (copy.status == Recorded && p.status == Reversed && copy.version < p.version
        && p == copy.(status := Reversed, version := p.version))
  }

  /** What is held is a copy of a row that is there: a statement as it was issued, a payment
      as it is or was before its void, a customer or the tenant as of an earlier write. */
  ghost predicate Genuine(client: Client, tenant: seq<Settings>, b: Books, cursor: nat) {
    (forall i :: i in client.payments ==>
       client.payments[i].version <= cursor && i < |b.payments| && IsPaymentCopy(client.payments[i], b.payments[i]))
    && (forall i :: i in client.statements ==>
          client.statements[i].version <= cursor && i < |b.statements| && client.statements[i] == b.statements[i])
    && (forall i :: i in client.customers ==> client.customers[i].version <= cursor && i < |b.customers|)
    && (forall i :: i in client.tenant ==> client.tenant[i].version <= cursor && i < |tenant|)
  }

  /** Rows are only added; statements stand and payments are at most voided. */
  ghost predicate TablesEvolve(tenant: seq<Settings>, b: Books, tenant': seq<Settings>, b': Books) {
    |tenant| <= |tenant'| && |b.customers| <= |b'.customers|
    && |b.payments| <= |b'.payments|
    && (forall i :: 0 <= i < |b.payments| ==> IsPaymentCopy(b.payments[i], b'.payments[i]))
    && |b.statements| <= |b'.statements|
    && (forall i :: 0 <= i < |b.statements| ==> b'.statements[i] == b.statements[i])
  }

  lemma {:induction false} StaysGenuine(
      client: Client, tenant: seq<Settings>, b: Books, tenant': seq<Settings>, b': Books, cursor: nat)
    requires Genuine(client, tenant, b, cursor) && TablesEvolve(tenant, b, tenant', b')
    ensures Genuine(client, tenant', b', cursor)
  {
    forall i | i in client.payments ensures IsPaymentCopy(client.payments[i], b'.payments[i]) {
      assert IsPaymentCopy(b.payments[i], b'.payments[i]);
    }
  }

  lemma {:induction false} PaymentsEvolve(b: Books, b': Books)
    requires PaymentStep(b, b'.payments) && VersionsOk(b)
    requires forall i :: 0 <= i < |b.payments| && b'.payments == Reverse(b.payments, i, b.nextVersion) ==>
               b.payments[i].status == Recorded
    ensures |b.payments| <= |b'.payments|
    ensures forall i :: 0 <= i < |b.payments| ==> IsPaymentCopy(b.payments[i], b'.payments[i])
  {
  }

  lemma {:induction false} PaymentCommandEvolves(b: Books, cmd: Command)
    requires VersionsOk(b) && (cmd.RecordPaymentCmd? || cmd.VoidPaymentCmd?)
    ensures var b' := Apply(b, cmd).books;
            |b.payments| <= |b'.payments|
            && forall i :: 0 <= i < |b.payments| ==> IsPaymentCopy(b.payments[i], b'.payments[i])
  {
    PaymentsMove(b, cmd);
    if cmd.VoidPaymentCmd? {
      ReversalEvolves(b, cmd.payment, cmd.blankReason);
    }
  }

  lemma {:induction false} ReversalEvolves(b: Books, p: nat, blank: bool)
    requires VersionsOk(b)
    ensures var b' := VoidPayment(b, p, blank).books;
            |b.payments| <= |b'.payments|
            && forall i :: 0 <= i < |b.payments| ==> IsPaymentCopy(b.payments[i], b'.payments[i])
  {
  }

  lemma {:induction false} CommandEvolves(tenant: seq<Settings>, b: Books, cmd: Command)
    requires VersionsOk(b)
    ensures TablesEvolve(tenant, b, tenant, Apply(b, cmd).books)
  {
    var x := Apply(b, cmd).books;
    if cmd.RecordServiceCmd? || cmd.CorrectServiceCmd? || cmd.VoidServiceCmd? {
      PostingKeepsStatements(b, cmd);
      ServiceKeepsPayments(b, cmd);
    } else if cmd.RecordPaymentCmd? || cmd.VoidPaymentCmd? {
      PostingKeepsStatements(b, cmd);
      PaymentCommandEvolves(b, cmd);
    } else if cmd.CloseCycleCmd? {
      ClosingAddsStatements(b, cmd.cycle);
      StatementsStand(b, x.statements);
    }
  }

  lemma {:induction false} StatementsStand(b: Books, ss: seq<Statement>)
    requires StatementStep(b, ss)
    ensures forall i :: 0 <= i < |b.statements| ==> ss[i] == b.statements[i]
  {
    forall i | 0 <= i < |b.statements| ensures ss[i] == b.statements[i] {
      assert ss[..|b.statements|][i] == b.statements[i];
    }
  }

  /** A page brings the tables' own rows. */
  lemma {:induction false} PageStaysGenuine(w: World, page: seq<Row>, cursor: nat)
    requires Genuine(w.client, w.tenant, w.books, w.cursor) && w.cursor <= cursor
    requires forall x :: x in page ==> x in Snapshot(w) && x.version <= cursor
    ensures Genuine(Applied(w.client, page), w.tenant, w.books, cursor)
  {
    var client := Applied(w.client, page);
    forall i | i in client.payments
      ensures client.payments[i].version <= cursor && i < |w.books.payments|
              && IsPaymentCopy(client.payments[i], w.books.payments[i])
    {
      NewlyHeld(w, page, i, PaymentDoc(client.payments[i]));
    }
    forall i | i in client.statements
      ensures client.statements[i].version <= cursor && i < |w.books.statements|
              && client.statements[i] == w.books.statements[i]
    {
      NewlyHeld(w, page, i, StatementDoc(client.statements[i]));
    }
    forall i | i in client.customers ensures client.customers[i].version <= cursor && i < |w.books.customers| {
      NewlyHeld(w, page, i, CustomerDoc(client.customers[i]));
    }
    forall i | i in client.tenant ensures client.tenant[i].version <= cursor && i < |w.tenant| {
      NewlyHeld(w, page, i, TenantDoc(client.tenant[i]));
    }
  }

  lemma {:induction false} NewlyHeld(w: World, page: seq<Row>, id: nat, document: Document)
    requires Holds(Applied(w.client, page), id, document) && forall x :: x in page ==> x in Snapshot(w)
    ensures Holds(w.client, id, document)
            || exists x :: x in page && x.id == id && x.data == document && IsOwnRow(w.tenant, w.books, x)
  {
    HeldCameFrom(w.client, page, id, document);
    if !Holds(w.client, id, document) {
      var x :| x in page && x.id == id && x.data == document;
      FedRowsAreOwn(w, x);
    }
  }

  // ---- every play --------------------------------------------------------------

  ghost predicate CopiesOk(w: World) {
    HoldsUpTo(w.client, Snapshot(w), w.cursor) && Genuine(w.client, w.tenant, w.books, w.cursor)
  }

  lemma {:induction false} DoKeepsCopies(w: World, cmd: Command, w': World)
    requires WorldOk(w) && CopiesOk(w) && w' == WithBooks(w, Apply(w.books, cmd).books)
    ensures CopiesOk(w')
  {
    CommandMovesOne(w.tenant, w.books, cmd);
    RedrawKeepsHeld(w.client, FeedTables(w.tenant, w.books), FeedTables(w'.tenant, w'.books), w.books.nextVersion,
                    w.cursor);
    CommandEvolves(w.tenant, w.books, cmd);
    StaysGenuine(w.client, w.tenant, w.books, w'.tenant, w'.books, w.cursor);
  }

  lemma {:induction false} TenantKeepsCopies(w: World, details: string)
    requires WorldOk(w) && CopiesOk(w)
    ensures CopiesOk(Step(w, TouchTenant(details)))
  {
    var row := Settings(details, w.books.nextVersion);
    var w' := Step(w, TouchTenant(details));
    TenantMoves(w.tenant, w.books, row);
    BurningBurns(w.books);
    assert FeedTables(w'.tenant, w'.books) == FeedTables([row], w.books);
    RedrawKeepsHeld(w.client, FeedTables(w.tenant, w.books), FeedTables([row], w.books), w.books.nextVersion, w.cursor);
    StaysGenuine(w.client, w.tenant, w.books, w'.tenant, w'.books, w.cursor);
  }

  lemma {:induction false} TenantMoves(tenant: seq<Settings>, b: Books, row: Settings)
    requires row.version == b.nextVersion
    ensures OneMoves(FeedTables(tenant, b), FeedTables([row], b), b.nextVersion)
  {
    MovedAt(FeedTables(tenant, b), FeedTables([row], b), b.nextVersion, 0);
  }

  lemma {:induction false} PulledCopies(w: World, n: nat, page: seq<Row>, cursor: nat)
    requires WorldOk(w) && CopiesOk(w) && 1 <= n && page == Feed.PageOf(Snapshot(w), w.cursor, n)
    requires cursor == Feed.CursorAfter(page, w.cursor)
    ensures HoldsUpTo(Applied(w.client, page), Snapshot(w), cursor)
    ensures Genuine(Applied(w.client, page), w.tenant, w.books, cursor)
  {
    ApartIsDistinct(FeedTables(w.tenant, w.books));
    Feed.PageHasNoGap(Snapshot(w), w.cursor, n);
    PageEndsAtItsCursor(page, w.cursor);
    OneRowPerDocument(w);
    PageKeepsHeld(w.client, Snapshot(w), w.cursor, page);
    PageStaysGenuine(w, page, cursor);
  }

  lemma {:induction false} PullKeepsCopies(w: World, limit: int)
    requires WorldOk(w) && CopiesOk(w)
    ensures CopiesOk(Step(w, Pull(limit)))
  {
    var page := Feed.PageOf(Snapshot(w), w.cursor, Feed.Clamp(limit));
    PulledCopies(w, Feed.Clamp(limit), page, Feed.CursorAfter(page, w.cursor));
    ClientCopies(w, Applied(w.client, page), Feed.CursorAfter(page, w.cursor));
  }

  lemma {:induction false} ClientCopies(w: World, client: Client, cursor: nat)
    requires HoldsUpTo(client, Snapshot(w), cursor) && Genuine(client, w.tenant, w.books, cursor)
    ensures CopiesOk(w.(client := client, cursor := cursor))
  {
    assert Snapshot(w.(client := client, cursor := cursor)) == Snapshot(w);
  }

  lemma {:induction false} StepKeepsCopies(w: World, e: FeedEvent)
    requires WorldOk(w) && CopiesOk(w)
    ensures CopiesOk(Step(w, e))
  {
    match e
    case Do(cmd) => DoKeepsCopies(w, cmd, WithBooks(w, Apply(w.books, cmd).books));
    case TouchTenant(details) => TenantKeepsCopies(w, details);
    case Pull(limit) => PullKeepsCopies(w, limit);
  }

  lemma {:induction false} AfterKeepsCopies(w: World, events: seq<FeedEvent>)
    requires WorldOk(w) && CopiesOk(w)
    ensures CopiesOk(After(w, events))
  {
    if events != [] {
      AfterKeeps(w, events[..|events| - 1]);
      AfterKeepsCopies(w, events[..|events| - 1]);
      StepKeepsCopies(After(w, events[..|events| - 1]), events[|events| - 1]);
    }
  }

  lemma {:induction false} NothingCopied(w: World)
    requires w.tenant == [] && w.books.customers == [] && w.books.records == [] && w.books.payments == []
    requires w.books.statements == [] && w.client == Client(map[], map[], map[], map[], map[])
    ensures CopiesOk(w)
  {
    forall x | x in Snapshot(w) ensures false {
      FedRowsAreOwn(w, x);
    }
  }

  lemma {:induction false} BeginCopies(today: Date, startDay: StartDay)
    ensures CopiesOk(Begin(today, startDay))
  {
    NothingCopied(Begin(today, startDay));
  }

  lemma {:induction false} PlayKeepsCopies(today: Date, startDay: StartDay, events: seq<FeedEvent>)
    ensures CopiesOk(Play(today, startDay, events))
  {
    BeginOk(today, startDay);
    BeginCopies(today, startDay);
    AfterKeepsCopies(Begin(today, startDay), events);
  }

  // ---- said of the tables ------------------------------------------------------

  /** Every row of the five tables at or below the cursor is held as it is now. */
  ghost predicate HoldsTables(client: Client, tenant: seq<Settings>, b: Books, cursor: nat) {
    (forall i :: 0 <= i < |tenant| && tenant[i].version <= cursor ==>
       i in client.tenant && client.tenant[i] == tenant[i])
    && (forall i :: 0 <= i < |b.customers| && b.customers[i].version <= cursor ==>
          i in client.customers && client.customers[i] == b.customers[i])
    && (forall i :: 0 <= i < |b.records| && b.records[i].version <= cursor ==>
          i in client.records && client.records[i] == b.records[i])
    && (forall i :: 0 <= i < |b.payments| && b.payments[i].version <= cursor ==>
          i in client.payments && client.payments[i] == b.payments[i])
    && (forall i :: 0 <= i < |b.statements| && b.statements[i].version <= cursor ==>
          i in client.statements && client.statements[i] == b.statements[i])
  }

  lemma {:induction false} HeldParties(w: World)
    requires HoldsUpTo(w.client, Snapshot(w), w.cursor)
    ensures forall i :: 0 <= i < |w.tenant| && w.tenant[i].version <= w.cursor ==>
              i in w.client.tenant && w.client.tenant[i] == w.tenant[i]
    ensures forall i :: 0 <= i < |w.books.customers| && w.books.customers[i].version <= w.cursor ==>
              i in w.client.customers && w.client.customers[i] == w.books.customers[i]
  {
    var b := w.books;
    forall i | 0 <= i < |w.tenant| {
      FedRowsAreOwn(w, Feed.Row(w.tenant[i].version, i, TenantDoc(w.tenant[i])));
    }
    forall i | 0 <= i < |b.customers| {
      FedRowsAreOwn(w, Feed.Row(b.customers[i].version, i, CustomerDoc(b.customers[i])));
    }
  }

  lemma {:induction false} HeldRowsAreTables(w: World)
    requires HoldsUpTo(w.client, Snapshot(w), w.cursor)
    ensures HoldsTables(w.client, w.tenant, w.books, w.cursor)
  {
    var b := w.books;
    HeldParties(w);
    forall i | 0 <= i < |b.records| {
      FedRowsAreOwn(w, Feed.Row(b.records[i].version, i, RecordDoc(b.records[i])));
    }
    forall i | 0 <= i < |b.payments| {
      FedRowsAreOwn(w, Feed.Row(b.payments[i].version, i, PaymentDoc(b.payments[i])));
    }
    forall i | 0 <= i < |b.statements| {
      FedRowsAreOwn(w, Feed.Row(b.statements[i].version, i, StatementDoc(b.statements[i])));
    }
  }

  /** Over every play and page limit the client has every row of every table up to its
      cursor as it is now: a payment voided at or below the cursor is held as voided. */
  lemma {:induction false} TablesAreHeld(today: Date, startDay: StartDay, events: seq<FeedEvent>, w: World)
    requires w == Play(today, startDay, events)
    ensures HoldsTables(w.client, w.tenant, w.books, w.cursor)
  {
    PlayKeepsCopies(today, startDay, events);
    HeldRowsAreTables(w);
  }

  /** And what it has beyond that: of payments, those voided above the cursor, as they were
      before; of statements nothing; of customers, those written again above the cursor. */
  ghost predicate HoldsNothingElse(client: Client, b: Books, cursor: nat) {
    (forall i :: i in client.payments ==>
       i < |b.payments|
       && (client.payments[i] == b.payments[i]
           || (cursor < b.payments[i].version && b.payments[i].status == Reversed
               && client.payments[i]
                  == b.payments[i].(status := Recorded, version := client.payments[i].version))))
    && (forall i :: i in client.statements <==> 0 <= i < |b.statements| && b.statements[i].version <= cursor)
    && (forall i :: i in client.customers ==>
          i < |b.customers| && (client.customers[i] == b.customers[i] || cursor < b.customers[i].version))
  }

  lemma {:induction false} GenuineIsAll(client: Client, tenant: seq<Settings>, b: Books, cursor: nat)
    requires Genuine(client, tenant, b, cursor) && HoldsTables(client, tenant, b, cursor)
    ensures HoldsNothingElse(client, b, cursor)
  {
    forall i | i in client.payments && client.payments[i] != b.payments[i]
      ensures client.payments[i] == b.payments[i].(status := Recorded, version := client.payments[i].version)
    {
      assert IsPaymentCopy(client.payments[i], b.payments[i]);
    }
  }

  lemma {:induction false} NothingElseIsHeld(today: Date, startDay: StartDay, events: seq<FeedEvent>, w: World)
    requires w == Play(today, startDay, events)
    ensures HoldsNothingElse(w.client, w.books, w.cursor)
  {
    PlayKeepsCopies(today, startDay, events);
    TablesAreHeld(today, startDay, events, w);
    GenuineIsAll(w.client, w.tenant, w.books, w.cursor);
  }

  // ---- a pull makes headway ----------------------------------------------------

  /** How many rows are newer than the client's cursor. */
  ghost function Behind(w: World): nat {
    |Feed.Delta(Snapshot(w), w.cursor)|
  }

  ghost predicate CaughtUp(w: World) {
    forall x :: x in Snapshot(w) ==> x.version <= w.cursor
  }

  lemma {:induction false} PageShortensTheDelta(rows: seq<Row>, since: nat, n: nat, page: seq<Row>)
    requires Feed.DistinctVersions(rows) && 1 <= n && page == Feed.PageOf(rows, since, n)
    ensures var whole := |Feed.Delta(rows, since)|;
            |Feed.Delta(rows, Feed.CursorAfter(page, since))| == if whole <= n then 0 else whole - n
  {
    Feed.PageIsPrefix(rows, since, n);
    if page != [] {
      Feed.RestOfDelta(rows, since, n);
    }
  }

  /** A pull brings as many of the newer rows as were asked for, between one and a thousand,
      and changes nothing but the client. */
  lemma {:induction false} PullBrings(
      today: Date, startDay: StartDay, events: seq<FeedEvent>, limit: int, w: World, w': World)
    requires w == Play(today, startDay, events) && w' == Step(w, Pull(limit))
    ensures w'.books == w.books && w'.tenant == w.tenant
    ensures var n := if limit < 1 then 1 else if limit <= 1000 then limit else 1000;
            Behind(w') == if Behind(w) <= n then 0 else Behind(w) - n
    ensures Behind(w') == 0 <==> CaughtUp(w')
  {
    var n, page := Feed.Clamp(limit), Feed.PageOf(Snapshot(w), w.cursor, Feed.Clamp(limit));
    PlayFollows(today, startDay, events);
    ApartIsDistinct(FeedTables(w.tenant, w.books));
    PageShortensTheDelta(Snapshot(w), w.cursor, n, page);
    PulledWorld(w, n, page, w');
    NothingNewer(w');
  }

  lemma {:induction false} PulledWorld(w: World, n: nat, page: seq<Row>, w': World)
    requires 1 <= n && w' == w.(client := Applied(w.client, page), cursor := Feed.CursorAfter(page, w.cursor))
    ensures Snapshot(w') == Snapshot(w)
  {
  }

  lemma {:induction false} NothingNewer(w: World)
    ensures Behind(w) == 0 <==> CaughtUp(w)
  {
    var newer := Feed.Delta(Snapshot(w), w.cursor);
    if newer != [] {
      assert newer[0] in newer;
    }
  }

  /** What each event does: a command its part to the books, a write of the tenant's row at a
      fresh version, and neither anything to the client. */
  lemma {:induction false} EventsDo(w: World, e: FeedEvent)
    ensures var w' := Step(w, e);
            match e
            case Do(cmd) => w' == w.(books := Apply(w.books, cmd).books, tables := w'.tables)
            case TouchTenant(details) =>
              w' == w.(books := Burnt(w.books), tenant := [Settings(details, w.books.nextVersion)], tables := w'.tables)
            case Pull(_) => w' == w.(client := w'.client, cursor := w'.cursor)
  {
  }
}
