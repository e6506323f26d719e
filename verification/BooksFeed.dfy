/** One tenant's books and a client that follows their feed: any commands, and between
    them any pulls, at any page limit. A pull is one snapshot of the five feed tables. */
module BooksFeed {
  import opened Outcomes
  import opened Calendar
  import opened Money
  import opened Records
  import opened Payments
  import opened Commission
  import opened Books
  import opened BooksInvariants
  import opened BooksClosing
  import opened BooksRuns
  import opened BooksHistory
  import Feed

  /** The tenant's row; `details` stands for its settings. */
  datatype Settings = Settings(details: string, version: nat)

  datatype Document =
    | TenantDoc(settings: Settings) | CustomerDoc(customer: Customer)
    | RecordDoc(record: Record) | PaymentDoc(payment: Payment) | StatementDoc(statement: Statement)

  type Row = Feed.Row<Document>

  /** What a client keeps: every document it has received, by table and id. */
  datatype Client = Client(
    tenant: map<nat, Settings>,
    customers: map<nat, Customer>,
    records: map<nat, Record>,
    payments: map<nat, Payment>,
    statements: map<nat, Statement>)

  /** The tenant's row (none or one) is kept beside the books; `tables` is every record table
      there has been, oldest first. */
  datatype World = World(
    books: Books,
    tenant: seq<Settings>,
    tables: seq<seq<Record>>,
    client: Client,
    cursor: nat)

  datatype FeedEvent =
    | Do(cmd: Command)
    | TouchTenant(details: string) // the tenant's row is inserted or written
    | Pull(limit: int)

  // ---- the five tables ---------------------------------------------------------

  function TenantRows(ts: seq<Settings>): seq<Row> {
    seq(|ts|, i requires 0 <= i < |ts| => Feed.Row(ts[i].version, i, TenantDoc(ts[i])))
  }

  function CustomerRows(cs: seq<Customer>): seq<Row> {
    seq(|cs|, i requires 0 <= i < |cs| => Feed.Row(cs[i].version, i, CustomerDoc(cs[i])))
  }

  function RecordRow(rs: seq<Record>, i: nat): Row
    requires i < |rs|
  {
    Feed.Row(rs[i].version, i, RecordDoc(rs[i]))
  }

  function RecordRows(rs: seq<Record>): seq<Row> {
    seq(|rs|, i requires 0 <= i < |rs| => RecordRow(rs, i))
  }

  function PaymentRows(ps: seq<Payment>): seq<Row> {
    seq(|ps|, i requires 0 <= i < |ps| => Feed.Row(ps[i].version, i, PaymentDoc(ps[i])))
  }

  function StatementRows(ss: seq<Statement>): seq<Row> {
    seq(|ss|, i requires 0 <= i < |ss| => Feed.Row(ss[i].version, i, StatementDoc(ss[i])))
  }

  function FeedTables(tenant: seq<Settings>, b: Books): (ts: seq<seq<Row>>)
    ensures |ts| == Feed.ENTITIES
  {
    [TenantRows(tenant), CustomerRows(b.customers), RecordRows(b.records), PaymentRows(b.payments),
     StatementRows(b.statements)]
  }

  function Snapshot(w: World): seq<Row> {
    Feed.Flatten(FeedTables(w.tenant, w.books))
  }

  // ---- steps -------------------------------------------------------------------

  /** Keep a document in the place of its identity. */
  function Received(client: Client, id: nat, document: Document): Client {
    match document
    case TenantDoc(settings) => client.(tenant := client.tenant[id := settings])
    case CustomerDoc(customer) => client.(customers := client.customers[id := customer])
    case RecordDoc(record) => client.(records := client.records[id := record])
    case PaymentDoc(payment) => client.(payments := client.payments[id := payment])
    case StatementDoc(statement) => client.(statements := client.statements[id := statement])
  }

  /** Apply rows by identity. */
  function Applied(client: Client, page: seq<Row>): Client {
    if page == [] then client
    else
      var last := page[|page| - 1];
      Received(Applied(client, page[..|page| - 1]), last.id, last.data)
  }

  function WithBooks(w: World, b: Books): World {
    w.(books := b, tables := w.tables + [b.records])
  }

  function Step(w: World, e: FeedEvent): World {
    match e
    case Do(cmd) => WithBooks(w, Apply(w.books, cmd).books)
    case TouchTenant(details) =>
      WithBooks(w, Apply(w.books, BurnVersions(1)).books).(tenant := [Settings(details, w.books.nextVersion)])
    case Pull(limit) =>
      var page := Feed.PageOf(Snapshot(w), w.cursor, Feed.Clamp(limit));
      w.(client := Applied(w.client, page), cursor := Feed.CursorAfter(page, w.cursor))
  }

  function Begin(today: Date, startDay: StartDay): World {
    World(Initial(today, startDay), [], [[]], Client(map[], map[], map[], map[], map[]), 0)
  }

  function After(w: World, events: seq<FeedEvent>): World {
    if events == [] then w else Step(After(w, events[..|events| - 1]), events[|events| - 1])
  }

  lemma {:induction false} AfterOneMore(w: World, events: seq<FeedEvent>, e: FeedEvent)
    ensures After(w, events + [e]) == Step(After(w, events), e)
  {
    assert (events + [e])[..|events|] == events;
  }

  lemma {:induction false} AfterFront(w: World, events: seq<FeedEvent>, front: seq<FeedEvent>, e: FeedEvent)
    requires events == front + [e]
    ensures After(w, events) == Step(After(w, front), e)
  {
    assert events[..|front|] == front;
  }

  lemma {:induction false} AfterJoin(w: World, xs: seq<FeedEvent>, ys: seq<FeedEvent>, all: seq<FeedEvent>)
    requires all == xs + ys
    ensures After(w, all) == After(After(w, xs), ys)
    decreases |ys|
  {
    if ys == [] {
      assert all == xs;
    } else {
      var rest, last := ys[..|ys| - 1], ys[|ys| - 1];
      AfterJoin(w, xs, rest, xs + rest);
      assert ys == rest + [last] && all == (xs + rest) + [last];
      AfterFront(w, all, xs + rest, last);
      AfterFront(After(w, xs), ys, rest, last);
    }
  }

  function Play(today: Date, startDay: StartDay, events: seq<FeedEvent>): World {
    After(Begin(today, startDay), events)
  }

  /** The commands among the events. */
  function Commands(events: seq<FeedEvent>): seq<Command> {
    if events == [] then []
    else
      var before, last := Commands(events[..|events| - 1]), events[|events| - 1];
      if last.Pull? then before else before + [if last.Do? then last.cmd else BurnVersions(1)]
  }

  /** The books of a play are a run of its commands, so every result about runs of the
      books holds of them. */
  lemma {:induction false} PlaysAreRuns(today: Date, startDay: StartDay, events: seq<FeedEvent>)
    ensures Play(today, startDay, events).books == Run(today, startDay, Commands(events))
    ensures Play(today, startDay, events).tables == Tables(today, startDay, Commands(events))
  {
    if events != [] {
      var before, last := events[..|events| - 1], events[|events| - 1];
      PlaysAreRuns(today, startDay, before);
      if !last.Pull? {
        var cmd := if last.Do? then last.cmd else BurnVersions(1);
        assert (Commands(before) + [cmd])[..|Commands(before)|] == Commands(before);
      }
    }
  }

  // ---- versions stay apart across the tables -----------------------------------

  ghost predicate Apart(ts: seq<seq<Row>>) {
    (forall k :: 0 <= k < |ts| ==> Feed.DistinctVersions(ts[k]))
    && (forall k, l, x, y :: 0 <= k < l < |ts| && x in ts[k] && y in ts[l] ==> x.version != y.version)
  }

  ghost predicate Under(ts: seq<seq<Row>>, version: nat) {
    forall k, x :: 0 <= k < |ts| && x in ts[k] ==> x.version < version
  }

  /** A table redrawn: every row is an old one or has a fresh version. */
  ghost predicate Redrawn(t: seq<Row>, t': seq<Row>, version: nat) {
    Feed.DistinctVersions(t') && forall x :: x in t' ==> x in t || version <= x.version
  }

  lemma {:induction false} RedrawKeepsApart(ts: seq<seq<Row>>, k: nat, t: seq<Row>, version: nat)
    requires k < |ts| && Apart(ts) && Under(ts, version) && Redrawn(ts[k], t, version)
    ensures Apart(ts[k := t])
  {
    var ts' := ts[k := t];
    forall i, j, x: Row, y: Row | 0 <= i < j < |ts'| && x in ts'[i] && y in ts'[j] ensures x.version != y.version {
      if i == k {
        assert y in ts[j];
      } else if j == k {
        assert x in ts[i];
      } else {
        assert x in ts[i] && y in ts[j];
      }
    }
  }

  lemma {:induction false} ApartIsDistinct(ts: seq<seq<Row>>)
    requires Apart(ts)
    ensures Feed.DistinctVersions(Feed.Flatten(ts))
  {
    if ts != [] {
      var last: nat := |ts| - 1;
      forall k, l, x: Row, y: Row | 0 <= k < l < last && x in ts[..last][k] && y in ts[..last][l]
        ensures x.version != y.version
      {
        assert x in ts[k] && y in ts[l];
      }
      ApartIsDistinct(ts[..last]);
      forall x, y | x in Feed.Flatten(ts[..last]) && y in ts[last] ensures x.version != y.version {
        var k := Feed.FromFlatten(ts[..last], x);
        assert x in ts[k];
      }
      Feed.JoinDistinct(Feed.Flatten(ts[..last]), ts[last]);
    }
  }

  // ---- one command redraws one table -------------------------------------------

  /** The two ways a command may change the payments, or none. */
  ghost predicate PaymentStep(b: Books, ps': seq<Payment>) {
    ps' == b.payments
    || (exists p :: ps' == b.payments + [p] && p.version == b.nextVersion)
    || (exists i :: 0 <= i < |b.payments| && ps' == Reverse(b.payments, i, b.nextVersion))
  }

  /** Statements are only ever added, at rising versions. */
  ghost predicate StatementStep(b: Books, ss': seq<Statement>) {
    |b.statements| <= |ss'| && ss'[..|b.statements|] == b.statements
    && forall i :: |b.statements| <= i < |ss'| ==> ss'[i].version == b.nextVersion + (i - |b.statements|)
  }

  lemma {:induction false} ServiceKeepsStatements(b: Books, cmd: Command)
    requires cmd.RecordServiceCmd? || cmd.CorrectServiceCmd? || cmd.VoidServiceCmd?
    ensures Apply(b, cmd).books.statements == b.statements && Apply(b, cmd).books.customers == b.customers
  {
    match cmd
    case RecordServiceCmd(customer, kind, quantity, date) =>
      RecordingKeepsStatements(b, customer, kind, quantity, date);
    case CorrectServiceCmd(i, kind, quantity, blank) => CorrectionKeepsStatements(b, i, kind, quantity, blank);
    case VoidServiceCmd(_, _) =>
  }

  lemma {:induction false} RecordingKeepsStatements(
      b: Books, customer: nat, kind: Kind, quantity: Option<Decimal>, date: Option<Date>)
    ensures var x := RecordService(b, customer, kind, quantity, date).books;
            x.statements == b.statements && x.customers == b.customers
  {
  }

  lemma {:induction false} CorrectionKeepsStatements(
      b: Books, i: nat, kind: Kind, quantity: Option<Decimal>, blank: bool)
    ensures var x := CorrectService(b, i, kind, quantity, blank).books;
            x.statements == b.statements && x.customers == b.customers
  {
  }

  lemma {:induction false} PostingKeepsStatements(b: Books, cmd: Command)
    requires IsPosting(cmd)
    ensures Apply(b, cmd).books.statements == b.statements && Apply(b, cmd).books.customers == b.customers
  {
    if cmd.RecordServiceCmd? || cmd.CorrectServiceCmd? || cmd.VoidServiceCmd? {
      ServiceKeepsStatements(b, cmd);
    }
  }

  lemma {:induction false} ServiceKeepsPayments(b: Books, cmd: Command)
    requires cmd.RecordServiceCmd? || cmd.CorrectServiceCmd? || cmd.VoidServiceCmd?
    ensures Apply(b, cmd).books.payments == b.payments
  {
  }

  lemma {:induction false} PaymentsMove(b: Books, cmd: Command)
    requires cmd.RecordPaymentCmd? || cmd.VoidPaymentCmd?
    ensures PaymentStep(b, Apply(b, cmd).books.payments) && Apply(b, cmd).books.records == b.records
  {
    match cmd
    case RecordPaymentCmd(customer, amount, date) =>
      var on := if date.Some? then date.value else b.today;
      var payment := Payment(customer, amount, on, Recorded, b.nextVersion);
      SettleKeepsDocuments(b, WithPayment(b, payment), PaymentPosting(payment, |b.payments|),
                           OnPaymentRecorded(b.earnings, WithPayment(b, payment).payments, |b.payments|), 1);
    case VoidPaymentCmd(p, _) =>
      if p < |b.payments| {
        SettleKeepsDocuments(b, WithReversal(b, p), ReversalPosting(b.payments[p], p),
                             OnPaymentVoided(b.earnings, WithReversal(b, p).payments, p), 1);
      }
  }

  lemma {:induction false} IssuedVersions(b: Books, k: nat, cs: seq<nat>)
    requires k < |b.cycles| && IssueStatements(b, k, cs).Ok?
    ensures StatementStep(b, IssueStatements(b, k, cs).value.statements)
    ensures IssueStatements(b, k, cs).value.nextVersion == b.nextVersion + |cs|
  {
    if cs != [] {
      IssuedVersions(b, k, cs[..|cs| - 1]);
    }
  }

  lemma {:induction false} ClosingAddsStatements(b: Books, k: nat)
    ensures var x := CloseCycle(b, k).books;
            StatementStep(b, x.statements) && x.records == b.records && x.payments == b.payments
            && x.customers == b.customers
  {
    if k < |b.cycles| {
      var closed := WithClosed(b, k);
      if IssueStatements(closed, k, Billable(closed, k)).Ok? {
        IssuedVersions(closed, k, Billable(closed, k));
      }
    }
  }

  /** Every record stays in its place or is drawn afresh, and no two at one version. */
  ghost predicate Refreshed(rs: seq<Record>, rs': seq<Record>, version: nat) {
    |rs| <= |rs'|
    && (forall i :: 0 <= i < |rs'| ==> version <= rs'[i].version || (i < |rs| && rs'[i] == rs[i]))
    && (forall i, j :: 0 <= i < j < |rs'| && version <= rs'[i].version && version <= rs'[j].version ==>
          rs'[i].version != rs'[j].version)
  }

  lemma {:induction false} AppendRefreshes(rs: seq<Record>, r: Record)
    requires AllBelow(rs, r.version)
    ensures Refreshed(rs, rs + [r], r.version)
  {
  }

  lemma {:induction false} SupersedeRefreshes(rs: seq<Record>, i: nat, version: nat, r: Record)
    requires i < |rs| && AllBelow(rs, version) && r.version == version + 1
    ensures Refreshed(rs, Supersede(rs, i, version, r), version)
  {
  }

  lemma {:induction false} VoidRefreshes(rs: seq<Record>, i: nat, version: nat)
    requires i < |rs| && AllBelow(rs, version)
    ensures Refreshed(rs, VoidRecord(rs, i, version), version)
  {
  }

  lemma {:induction false} StepRefreshes(b: Books, rs': seq<Record>)
    requires RecordStep(b, rs') && AllBelow(b.records, b.nextVersion)
    ensures Refreshed(b.records, rs', b.nextVersion)
  {
    var rs, v := b.records, b.nextVersion;
    if r :| rs' == rs + [r] && r.version == v {
      AppendRefreshes(rs, r);
    } else if i, r :| 0 <= i < |rs| && rs' == Supersede(rs, i, v, r) && r.version == v + 1 {
      SupersedeRefreshes(rs, i, v, r);
    } else if i :| 0 <= i < |rs| && rs' == VoidRecord(rs, i, v) {
      VoidRefreshes(rs, i, v);
    }
  }

  lemma {:induction false} RecordsRedrawn(rs: seq<Record>, rs': seq<Record>, version: nat)
    requires Feed.DistinctVersions(RecordRows(rs)) && AllBelow(rs, version) && Refreshed(rs, rs', version)
    ensures Redrawn(RecordRows(rs), RecordRows(rs'), version)
  {
    var t, t' := RecordRows(rs), RecordRows(rs');
    forall i, j | 0 <= i < j < |t'| ensures t'[i].version != t'[j].version {
      assert t'[i].version == rs'[i].version && t'[j].version == rs'[j].version;
      if i < |rs| && j < |rs| && rs'[i] == rs[i] && rs'[j] == rs[j] {
        assert t[i].version != t[j].version;
      }
    }
    forall x | x in t' ensures x in t || version <= x.version {
      var i :| 0 <= i < |t'| && t'[i] == x;
      if rs'[i].version < version {
        assert t[i] == t'[i];
      }
    }
  }

  lemma {:induction false} PaymentsRedrawn(b: Books, ps': seq<Payment>)
    requires PaymentStep(b, ps') && VersionsOk(b) && Feed.DistinctVersions(PaymentRows(b.payments))
    ensures Redrawn(PaymentRows(b.payments), PaymentRows(ps'), b.nextVersion)
  {
    var ps := b.payments;
    var t, t' := PaymentRows(ps), PaymentRows(ps');
    forall i, j | 0 <= i < j < |t'| ensures t'[i].version != t'[j].version {
      if j < |ps| && ps'[i] == ps[i] && ps'[j] == ps[j] {
        assert t[i].version != t[j].version;
      }
    }
    forall x | x in t' ensures x in t || b.nextVersion <= x.version {
      var i :| 0 <= i < |t'| && t'[i] == x;
      if i < |ps| && ps'[i] == ps[i] {
        assert t[i] == t'[i];
      }
    }
  }

  lemma {:induction false} StatementsRedrawn(b: Books, ss': seq<Statement>)
    requires StatementStep(b, ss') && VersionsOk(b) && Feed.DistinctVersions(StatementRows(b.statements))
    ensures Redrawn(StatementRows(b.statements), StatementRows(ss'), b.nextVersion)
  {
    var ss := b.statements;
    var t, t' := StatementRows(ss), StatementRows(ss');
    forall i | 0 <= i < |ss| ensures ss'[i] == ss[i] && t'[i] == t[i] {
      assert ss'[..|ss|][i] == ss[i];
    }
    forall i, j | 0 <= i < j < |t'| ensures t'[i].version != t'[j].version {
      if j < |ss| {
        assert t[i].version != t[j].version;
      }
    }
    forall x | x in t' ensures x in t || b.nextVersion <= x.version {
      var i :| 0 <= i < |t'| && t'[i] == x;
    }
  }

  lemma {:induction false} CustomersRedrawn(b: Books, customer: nat, row: Customer)
    requires VersionsOk(b) && Feed.DistinctVersions(CustomerRows(b.customers))
    ensures Redrawn(CustomerRows(b.customers), CustomerRows(PutCustomer(b, customer, row).books.customers),
                    b.nextVersion)
  {
    var cs, cs' := b.customers, PutCustomer(b, customer, row).books.customers;
    var t, t' := CustomerRows(cs), CustomerRows(cs');
    forall i, j | 0 <= i < j < |t'| ensures t'[i].version != t'[j].version {
      if j < |cs| && cs'[i] == cs[i] && cs'[j] == cs[j] {
        assert t[i].version != t[j].version;
      }
    }
    forall x | x in t' ensures x in t || b.nextVersion <= x.version {
      var i :| 0 <= i < |t'| && t'[i] == x;
      if i < |cs| && cs'[i] == cs[i] {
        assert t[i] == t'[i];
      }
    }
  }

  /** One of the tables is redrawn, the others stay. */
  ghost predicate OneMoves(ts: seq<seq<Row>>, ts': seq<seq<Row>>, version: nat) {
    exists k :: 0 <= k < |ts| && |ts'| == |ts| && ts' == ts[k := ts'[k]] && Redrawn(ts[k], ts'[k], version)
  }

  lemma {:induction false} MovedAt(ts: seq<seq<Row>>, ts': seq<seq<Row>>, version: nat, k: nat)
    requires k < |ts| && |ts'| == |ts| && ts' == ts[k := ts'[k]] && Redrawn(ts[k], ts'[k], version)
    ensures OneMoves(ts, ts', version)
  {
  }

  lemma {:induction false} Unmoved(ts: seq<seq<Row>>, version: nat)
    requires Apart(ts) && ts != []
    ensures OneMoves(ts, ts, version)
  {
    MovedAt(ts, ts, version, 0);
  }

  /** Whatever a command does, it redraws one feed table at fresh versions. */
  lemma {:induction false} CommandMovesOne(tenant: seq<Settings>, b: Books, cmd: Command)
    requires VersionsOk(b) && Apart(FeedTables(tenant, b))
    ensures OneMoves(FeedTables(tenant, b), FeedTables(tenant, Apply(b, cmd).books), b.nextVersion)
  {
    var ts, x := FeedTables(tenant, b), Apply(b, cmd).books;
    var ts' := FeedTables(tenant, x);
    assert Feed.DistinctVersions(ts[1]) && Feed.DistinctVersions(ts[2]);
    assert Feed.DistinctVersions(ts[3]) && Feed.DistinctVersions(ts[4]);
    if cmd.RecordServiceCmd? || cmd.CorrectServiceCmd? || cmd.VoidServiceCmd? {
      PostingKeepsStatements(b, cmd);
      ServiceKeepsPayments(b, cmd);
      ApplyStep(b, cmd);
      assert AllBelow(b.records, b.nextVersion);
      StepRefreshes(b, x.records);
      RecordsRedrawn(b.records, x.records, b.nextVersion);
      MovedAt(ts, ts', b.nextVersion, 2);
    } else if cmd.RecordPaymentCmd? || cmd.VoidPaymentCmd? {
      PostingKeepsStatements(b, cmd);
      PaymentsMove(b, cmd);
      PaymentsRedrawn(b, x.payments);
      MovedAt(ts, ts', b.nextVersion, 3);
    } else if cmd.CloseCycleCmd? {
      ClosingAddsStatements(b, cmd.cycle);
      StatementsRedrawn(b, x.statements);
      MovedAt(ts, ts', b.nextVersion, 4);
    } else if cmd.SetCustomer? {
      CustomersRedrawn(b, cmd.customer, cmd.row);
      MovedAt(ts, ts', b.nextVersion, 1);
    } else {
      assert x.records == b.records && x.payments == b.payments && x.statements == b.statements;
      Unmoved(ts, b.nextVersion);
    }
  }

  lemma {:induction false} RowsUnder(tenant: seq<Settings>, b: Books)
    requires VersionsOk(b)
    requires forall i :: 0 <= i < |tenant| ==> tenant[i].version < b.nextVersion
    ensures Under(FeedTables(tenant, b), b.nextVersion)
  {
  }
}
