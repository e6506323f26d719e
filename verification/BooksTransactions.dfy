/** One tenant's books under the sync protocol. Transactions of any tenants interleave as the
    protocol lets them; those that write the feed work on the books between their claim and
    their commit, on what they find committed and on their own work so far; a refusal rolls
    back. Plans and the business date change without the lock, and clients pull what is
    committed. Every interleaving leaves the books, and a client, as some sequence of whole
    commands does. */
module BooksTransactions {
  import opened Outcomes
  import opened Calendar
  import opened Records
  import opened Commission
  import opened Books
  import opened BooksInvariants
  import opened BooksRuns
  import opened BooksHistory
  import opened BooksLocking
  import opened BooksFeed
  import opened BooksClients
  import BooksCopies
  import Ops = OpTypes
  import Feed
  import P = SyncProtocol
  import I = SyncInvariants

  /** The protocol's state; the committed tables with one of the tenant's clients; and the
      tables as each transaction has left them so far. */
  datatype Floor = Floor(server: P.Server, world: World, staged: map<nat, World>)

  datatype Move =
    | Protocol(action: P.Action)
    | Perform(txn: nat, event: FeedEvent)
    | Unlocked(cmd: Command)
    | Fetch(limit: int)

  // ---- steps -------------------------------------------------------------------

  /** The work of an operation that writes the feed. */
  predicate IsWork(e: FeedEvent) {
    match e
    case Do(cmd) => OpOf(cmd).Some? && Ops.FeedWriting(OpOf(cmd).value)
    case Pull(_) => false
    case _ => true
  }

  /** What changes without the feed lock. */
  predicate IsUnlocked(cmd: Command) {
    cmd.CreatePlanCmd? || cmd.AdvanceTo? || cmd.BurnVersions?
  }

  predicate Refused(w: World, e: FeedEvent) {
    e.Do? && Apply(w.books, e.cmd).error.Some?
  }

  /** The world without the record of its past tables, at a given point of the sequence. */
  function Bare(w: World, next: nat): World {
    w.(tables := [], books := w.books.(nextVersion := next))
  }

  /** A transaction sees its own work over what is committed; plans, the date and the sequence
      are never its own. */
  function Over(own: World, committed: World): World {
    own.(books := own.books.(earnings := own.books.earnings.(plans := committed.books.earnings.plans),
                             today := committed.books.today, nextVersion := committed.books.nextVersion),
         client := committed.client, cursor := committed.cursor, tables := [])
  }

  function Seen(s: Floor, t: nat): World {
    if t in s.staged then Over(s.staged[t], s.world) else s.world
  }

  /** The transaction may work: it is this tenant's, has claimed its id, and writes the feed. */
  predicate AtWork(server: P.Server, me: nat, t: nat) {
    t in server.txns && server.txns[t].tenant == me && server.txns[t].phase == P.Claimed
    && Ops.FeedWriting(server.txns[t].request.op)
  }

  /** The tenant's feed rows are the tables here. */
  predicate WritesOwnRows(server: P.Server, me: nat, a: P.Action) {
    a.Write? && a.txn in server.txns && server.txns[a.txn].tenant == me
  }

  function StillAtWork(staged: map<nat, World>, server: P.Server, me: nat): map<nat, World> {
    map t | t in staged && AtWork(server, me, t) :: staged[t]
  }

  ghost function DoProtocol(keyOf: nat -> int, me: nat, s: Floor, a: P.Action): Floor {
    if WritesOwnRows(s.server, me, a) then s
    else
      var server := P.Next(keyOf, s.server, a);
      var world := if a.Commit? && a.txn in s.staged then Seen(s, a.txn) else s.world;
      Floor(server, Bare(world, server.nextVersion), StillAtWork(s.staged, server, me))
  }

  function Drawn(server: P.Server, next: nat): P.Server {
    server.(nextVersion := next)
  }

  /** Work is staged; a refusal rolls the transaction back. Either way its draws are gone. */
  function Worked(s: Floor, t: nat, after: World, refused: bool): Floor {
    var next := after.books.nextVersion;
    if refused then Floor(P.Ended(Drawn(s.server, next), t), Bare(s.world, next), s.staged - {t})
    else Floor(Drawn(s.server, next), Bare(s.world, next), s.staged[t := Bare(after, next)])
  }

  function DoPerform(me: nat, s: Floor, t: nat, e: FeedEvent): Floor {
    if AtWork(s.server, me, t) && IsWork(e) then Worked(s, t, Step(Seen(s, t), e), Refused(Seen(s, t), e)) else s
  }

  ghost function Next(keyOf: nat -> int, me: nat, s: Floor, m: Move): Floor {
    match m
    case Protocol(a) => DoProtocol(keyOf, me, s, a)
    case Perform(t, e) => DoPerform(me, s, t, e)
    case Unlocked(cmd) =>
      if IsUnlocked(cmd) then
        var after := Step(s.world, Do(cmd));
        s.(server := Drawn(s.server, after.books.nextVersion), world := Bare(after, after.books.nextVersion))
      else s
    case Fetch(limit) => s.(world := Step(s.world, Pull(limit)))
  }

  function Opened(today: Date, startDay: StartDay): Floor {
    Floor(P.Start(), Bare(Begin(today, startDay), 1), map[])
  }

  ghost function RunMoves(keyOf: nat -> int, me: nat, today: Date, startDay: StartDay, moves: seq<Move>): Floor {
    if moves == [] then Opened(today, startDay)
    else Next(keyOf, me, RunMoves(keyOf, me, today, startDay, moves[..|moves| - 1]), moves[|moves| - 1])
  }

  // ---- the protocol underneath -------------------------------------------------

  /** The same moves in the protocol's own terms: work draws versions, a refusal rolls back. */
  ghost function InProtocol(me: nat, s: Floor, m: Move): seq<P.Action> {
    match m
    case Protocol(a) => if WritesOwnRows(s.server, me, a) then [] else [a]
    case Perform(t, e) =>
      if AtWork(s.server, me, t) && IsWork(e) then
        Burns(Step(Seen(s, t), e).books.nextVersion - s.server.nextVersion)
        + if Refused(Seen(s, t), e) then [P.Rollback(t)] else []
      else []
    case Unlocked(cmd) =>
      if IsUnlocked(cmd) then Burns(Step(s.world, Do(cmd)).books.nextVersion - s.server.nextVersion) else []
    case Fetch(_) => []
  }

  function Burns(n: int): seq<P.Action> {
    if n <= 0 then [] else Burns(n - 1) + [P.Burn]
  }

  // ---- the serial play ---------------------------------------------------------

  /** What has happened since the transaction at work began: its own events, with the
      versions each drew, and what others did meanwhile. */
  datatype Entry = Own(event: FeedEvent, drawn: nat) | Meanwhile(cmd: Command)

  datatype Script = Script(done: seq<FeedEvent>, log: seq<Entry>)

  /** The log as it stands if the transaction commits. */
  function Committed(log: seq<Entry>): seq<FeedEvent> {
    if log == [] then []
    else
      var last := log[|log| - 1];
      Committed(log[..|log| - 1]) + [if last.Own? then last.event else Do(last.cmd)]
  }

  /** The log as it stands if it does not: its draws are lost. */
  function Abandoned(log: seq<Entry>): seq<FeedEvent> {
    if log == [] then []
    else
      var last := log[|log| - 1];
      Abandoned(log[..|log| - 1]) + [Do(if last.Own? then BurnVersions(last.drawn) else last.cmd)]
  }

  /** How many versions a step draws. */
  function Draws(s: Floor, s': Floor): nat {
    if s.server.nextVersion <= s'.server.nextVersion then s'.server.nextVersion - s.server.nextVersion else 0
  }

  /** What the step adds to the log. */
  function NewEntry(me: nat, s: Floor, m: Move, s': Floor): Entry {
    if m.Perform? && AtWork(s.server, me, m.txn) && IsWork(m.event) then Own(m.event, Draws(s, s'))
    else if m.Unlocked? && IsUnlocked(m.cmd) then Meanwhile(m.cmd)
    else Meanwhile(BurnVersions(Draws(s, s')))
  }

  predicate Publishes(s: Floor, m: Move) {
    m.Protocol? && m.action.Commit? && m.action.txn in s.staged
  }

  /** A commit settles the log as its transaction's work; with nobody at work it is settled
      without. A pull sees none of it. */
  function NextScript(me: nat, s: Floor, m: Move, s': Floor, script: Script): Script {
    if m.Fetch? then script.(done := script.done + [Pull(m.limit)])
    else
      var log := script.log + [NewEntry(me, s, m, s')];
      if Publishes(s, m) then Script(script.done + Committed(log), [])
      else if s'.staged == map[] then Script(script.done + Abandoned(log), [])
      else Script(script.done, log)
  }

  ghost function ScriptOf(keyOf: nat -> int, me: nat, today: Date, startDay: StartDay, moves: seq<Move>): Script {
    if moves == [] then Script([], [])
    else
      var rest := moves[..|moves| - 1];
      NextScript(me, RunMoves(keyOf, me, today, startDay, rest), moves[|moves| - 1],
                 RunMoves(keyOf, me, today, startDay, moves), ScriptOf(keyOf, me, today, startDay, rest))
  }

  /** A sequence of whole commands and pulls that does what the interleaving did. */
  ghost function SerialPlay(keyOf: nat -> int, me: nat, today: Date, startDay: StartDay, moves: seq<Move>)
    : seq<FeedEvent>
  {
    var script := ScriptOf(keyOf, me, today, startDay, moves);
    script.done + Abandoned(script.log)
  }

  // ---- worlds that differ in the record of their past only ---------------------

  ghost predicate Same(w: World, v: World) {
    w.(tables := []) == v.(tables := [])
  }

  lemma {:induction false} StepAlike(w: World, v: World, e: FeedEvent)
    requires Same(w, v)
    ensures Same(Step(w, e), Step(v, e))
  {
  }

  lemma {:induction false} AfterAlike(w: World, v: World, events: seq<FeedEvent>)
    requires Same(w, v)
    ensures Same(After(w, events), After(v, events))
  {
    if events != [] {
      var last: nat := |events| - 1;
      AfterAlike(w, v, events[..last]);
      StepAlike(After(w, events[..last]), After(v, events[..last]), events[last]);
    }
  }

  // ---- what changes without the lock -------------------------------------------

  /** It moves plans, the date and the sequence, each by itself. */
  lemma {:induction false} UnlockedMoves(own: World, committed: World, cmd: Command)
    requires IsUnlocked(cmd)
    ensures Same(Step(Over(own, committed), Do(cmd)), Over(own, Step(committed, Do(cmd))))
  {
  }

  lemma {:induction false} UnlockedKeepsFeed(w: World, cmd: Command)
    requires IsUnlocked(cmd)
    ensures SameFeed(w, Step(w, Do(cmd)))
  {
  }

  /** The same feed, for the same client. */
  ghost predicate SameFeed(w: World, v: World) {
    w.tenant == v.tenant && w.client == v.client && w.cursor == v.cursor
    && w.books.customers == v.books.customers && w.books.records == v.books.records
    && w.books.payments == v.books.payments
    && w.books.statements == v.books.statements
  }

  // ---- the work of a transaction -----------------------------------------------

  lemma {:induction false} CommandKeepsTerms(b: Books, cmd: Command)
    requires OpOf(cmd).Some? && Ops.FeedWriting(OpOf(cmd).value)
    ensures Apply(b, cmd).books.earnings.plans == b.earnings.plans && Apply(b, cmd).books.today == b.today
  {
    if cmd.CloseCycleCmd? {
      ClosingKeepsTerms(b, cmd.cycle);
    } else if cmd.RecordPaymentCmd? || cmd.VoidPaymentCmd? {
      PaymentKeepsTerms(b, cmd);
    } else if cmd.RecordServiceCmd? {
      RecordingKeepsTerms(b, cmd);
    } else if cmd.CorrectServiceCmd? || cmd.VoidServiceCmd? {
      EndingKeepsTerms(b, cmd);
    }
  }

  lemma {:induction false} RecordingKeepsTerms(b: Books, cmd: Command)
    requires cmd.RecordServiceCmd?
    ensures Apply(b, cmd).books.earnings.plans == b.earnings.plans && Apply(b, cmd).books.today == b.today
  {
  }

  lemma {:induction false} EndingKeepsTerms(b: Books, cmd: Command)
    requires cmd.CorrectServiceCmd? || cmd.VoidServiceCmd?
    ensures Apply(b, cmd).books.earnings.plans == b.earnings.plans && Apply(b, cmd).books.today == b.today
  {
  }

  lemma {:induction false} PaymentKeepsTerms(b: Books, cmd: Command)
    requires cmd.RecordPaymentCmd? || cmd.VoidPaymentCmd?
    ensures Apply(b, cmd).books.earnings.plans == b.earnings.plans && Apply(b, cmd).books.today == b.today
  {
  }

  lemma {:induction false} ClosingKeepsTerms(b: Books, k: nat)
    ensures CloseCycle(b, k).books.earnings.plans == b.earnings.plans && CloseCycle(b, k).books.today == b.today
  {
    if k < |b.cycles| && BillCycle(WithClosed(b, k), k).Ok? {
      var billed := BillCycle(WithClosed(b, k), k).value;
      EarningKeepsPlans(b.earnings, billed.statements, |b.statements|, b.cycles[k].period.end);
    }
  }

  lemma {:induction false} EarningKeepsPlans(t: Earnings, ss: seq<Statement>, n: nat, periodEnd: Date)
    requires n <= |ss|
    ensures EarnOnStatements(t, ss, n, periodEnd).plans == t.plans
    decreases |ss|
  {
    if n < |ss| {
      EarningKeepsPlans(t, ss[..|ss| - 1], n, periodEnd);
    }
  }

  /** The plans, the date and the client are left alone, and versions are only drawn. */
  ghost predicate KeepsTerms(w: World, v: World) {
    v.books.earnings.plans == w.books.earnings.plans && v.books.today == w.books.today
    && v.client == w.client && v.cursor == w.cursor && w.books.nextVersion <= v.books.nextVersion
  }

  lemma {:induction false} WorkKeepsTerms(w: World, e: FeedEvent)
    requires IsWork(e) && Inv(w.books)
    ensures KeepsTerms(w, Step(w, e))
  {
    if e.Do? {
      CommandKeepsTerms(w.books, e.cmd);
      VersionsOnlyRise(w.books, e.cmd);
    }
  }

  // ---- the simulation ----------------------------------------------------------

  ghost predicate LogOk(log: seq<Entry>) {
    forall k :: 0 <= k < |log| ==> if log[k].Own? then IsWork(log[k].event) else IsUnlocked(log[k].cmd)
  }

  /** From the play so far: what is committed is what the log abandoned comes to, and what a
      transaction at work sees is what the log committed would. */
  ghost predicate Follows(s: Floor, base: World, log: seq<Entry>) {
    s.world.tables == [] && s.world.books.nextVersion == s.server.nextVersion
    && Same(s.world, After(base, Abandoned(log)))
    && forall t :: t in s.staged ==> Same(Seen(s, t), After(base, Committed(log)))
  }

  ghost predicate IsPlay(w: World) {
    exists today, startDay, events :: w == Play(today, startDay, events)
  }

  lemma {:induction false} PlayGoesOn(w: World, events: seq<FeedEvent>)
    requires IsPlay(w)
    ensures Inv(After(w, events).books)
  {
    var today, startDay, before :| w == Play(today, startDay, before);
    PlayFollows(today, startDay, before);
    AfterKeeps(w, events);
  }

  ghost predicate FloorOk(keyOf: nat -> int, me: nat, s: Floor) {
    IsProtocolRun(keyOf, s.server) && forall t :: t in s.staged ==> AtWork(s.server, me, t)
  }

  /** The protocol reaches this state, so whatever holds of its runs holds here. */
  ghost predicate IsProtocolRun(keyOf: nat -> int, server: P.Server) {
    exists actions :: server == P.Run(keyOf, actions)
  }

  lemma {:induction false} ProtocolRunGoesOn(keyOf: nat -> int, server: P.Server, a: P.Action)
    requires IsProtocolRun(keyOf, server)
    ensures IsProtocolRun(keyOf, P.Next(keyOf, server, a))
  {
    var actions :| server == P.Run(keyOf, actions);
    assert (actions + [a])[..|actions|] == actions;
    assert P.Next(keyOf, server, a) == P.Run(keyOf, actions + [a]);
  }

  /** The lock admits one of the tenant's transactions to its work at a time. */
  lemma {:induction false} OneAtWork(keyOf: nat -> int, server: P.Server, me: nat, t: nat, u: nat)
    requires IsProtocolRun(keyOf, server) && AtWork(server, me, t) && AtWork(server, me, u)
    ensures t == u
  {
    var actions :| server == P.Run(keyOf, actions);
    I.RunKeeps(keyOf, actions);
    assert I.TxnOk(keyOf, server, t, server.txns[t]);
    assert I.TxnOk(keyOf, server, u, server.txns[u]);
  }

  lemma {:induction false} LogGrows(log: seq<Entry>, x: Entry)
    ensures Committed(log + [x]) == Committed(log) + [if x.Own? then x.event else Do(x.cmd)]
    ensures Abandoned(log + [x]) == Abandoned(log) + [Do(if x.Own? then BurnVersions(x.drawn) else x.cmd)]
  {
    assert (log + [x])[..|log|] == log;
  }

  lemma {:induction false} AbandonedOneMore(w: World, base: World, log: seq<Entry>, x: Entry, cmd: Command)
    requires Same(w, After(base, Abandoned(log))) && cmd == if x.Own? then BurnVersions(x.drawn) else x.cmd
    ensures Same(Step(w, Do(cmd)), After(base, Abandoned(log + [x])))
  {
    LogGrows(log, x);
    AfterOneMore(base, Abandoned(log), Do(cmd));
    StepAlike(w, After(base, Abandoned(log)), Do(cmd));
  }

  lemma {:induction false} CommittedOneMore(w: World, base: World, log: seq<Entry>, x: Entry, e: FeedEvent)
    requires Same(w, After(base, Committed(log))) && e == if x.Own? then x.event else Do(x.cmd)
    ensures Same(Step(w, e), After(base, Committed(log + [x])))
  {
    LogGrows(log, x);
    AfterOneMore(base, Committed(log), e);
    StepAlike(w, After(base, Committed(log)), e);
  }

  /** Something happens without the lock, or versions are drawn elsewhere. */
  lemma {:induction false} MeanwhileFollows(s: Floor, s': Floor, cmd: Command, base: World, log: seq<Entry>)
    requires Follows(s, base, log) && IsUnlocked(cmd)
    requires s'.world == Step(s.world, Do(cmd)).(tables := []) && s'.world.books.nextVersion == s'.server.nextVersion
    requires forall t :: t in s'.staged ==> t in s.staged && s'.staged[t] == s.staged[t]
    ensures Follows(s', base, log + [Meanwhile(cmd)])
  {
    AbandonedOneMore(s.world, base, log, Meanwhile(cmd), cmd);
    forall t | t in s'.staged ensures Same(Seen(s', t), After(base, Committed(log + [Meanwhile(cmd)]))) {
      UnlockedMoves(s.staged[t], s.world, cmd);
      CommittedOneMore(Seen(s, t), base, log, Meanwhile(cmd), Do(cmd));
    }
  }

  lemma {:induction false} BurnMovesTheSequence(w: World, next: nat)
    requires w.tables == [] && w.books.nextVersion <= next
    ensures Same(Step(w, Do(BurnVersions(next - w.books.nextVersion))), Bare(w, next))
  {
  }

  /** Work drawn but not committed is a burn to everyone else. */
  lemma {:induction false} WorkIsABurn(w: World, next: nat, base: World, log: seq<Entry>, x: Entry)
    requires Same(w, After(base, Abandoned(log))) && w.tables == [] && w.books.nextVersion <= next
    requires x.Own? && x.drawn == next - w.books.nextVersion
    ensures Same(Bare(w, next), After(base, Abandoned(log + [x])))
  {
    AbandonedOneMore(w, base, log, x, BurnVersions(x.drawn));
    BurnMovesTheSequence(w, next);
  }

  /** The one transaction at work has the books of the log as committed before it. */
  lemma {:induction false} WorksOnTheLog(
      keyOf: nat -> int, me: nat, s: Floor, t: nat, base: World, log: seq<Entry>)
    requires FloorOk(keyOf, me, s) && IsPlay(base) && Follows(s, base, log) && AtWork(s.server, me, t)
    requires s.staged == map[] ==> log == []
    ensures Same(Seen(s, t), After(base, Committed(log))) && Inv(Seen(s, t).books)
    ensures s.staged.Keys <= {t}
  {
    forall u | u in s.staged ensures u == t {
      OneAtWork(keyOf, s.server, me, t, u);
    }
    PlayGoesOn(base, Committed(log));
    if t !in s.staged {
      assert s.staged == map[];
    }
  }

  /** What a transaction sees right after its own work is that work. */
  lemma {:induction false} SeesItsWork(seen: World, committed: World, after: World)
    requires KeepsTerms(seen, after) && KeepsTerms(seen, committed)
    ensures Same(Over(Bare(after, after.books.nextVersion), Bare(committed, after.books.nextVersion)), after)
  {
  }

  lemma {:induction false} LogStaysOk(log: seq<Entry>, x: Entry)
    requires LogOk(log) && if x.Own? then IsWork(x.event) else IsUnlocked(x.cmd)
    ensures LogOk(log + [x])
  {
  }

  lemma {:induction false} SeenTerms(s: Floor, t: nat)
    ensures KeepsTerms(Seen(s, t), s.world) && Seen(s, t).books.nextVersion == s.world.books.nextVersion
  {
  }

  /** One event of work, staged or refused. */
  lemma {:induction false} WorkedFollows(
      s: Floor, t: nat, after: World, refused: bool, base: World, log: seq<Entry>, s': Floor, x: Entry)
    requires Follows(s, base, log) && s.staged.Keys <= {t} && KeepsTerms(Seen(s, t), after)
    requires s' == Worked(s, t, after, refused) && x.Own? && x.drawn == Draws(s, s')
    requires Same(after, After(base, Committed(log + [x])))
    ensures s.server.nextVersion <= s'.server.nextVersion && Follows(s', base, log + [x])
    ensures refused ==> s'.staged == map[]
  {
    SeenTerms(s, t);
    WorkIsABurn(s.world, after.books.nextVersion, base, log, x);
    SeesItsWork(Seen(s, t), s.world, after);
  }

  lemma {:induction false} PerformFollows(
      keyOf: nat -> int, me: nat, s: Floor, t: nat, e: FeedEvent, base: World, log: seq<Entry>, s': Floor, x: Entry)
    requires FloorOk(keyOf, me, s) && IsPlay(base) && Follows(s, base, log) && AtWork(s.server, me, t) && IsWork(e)
    requires s.staged == map[] ==> log == []
    requires s' == DoPerform(me, s, t, e) && x == Own(e, Draws(s, s'))
    ensures s.server.nextVersion <= s'.server.nextVersion && Follows(s', base, log + [x])
  {
    var after := Step(Seen(s, t), e);
    WorksOnTheLog(keyOf, me, s, t, base, log);
    WorkKeepsTerms(Seen(s, t), e);
    CommittedOneMore(Seen(s, t), base, log, x, e);
    WorkedFollows(s, t, after, Refused(Seen(s, t), e), base, log, s', x);
  }

  /** A step of the protocol that publishes nothing draws versions at most. */
  lemma {:induction false} ProtocolFollows(
      keyOf: nat -> int, me: nat, s: Floor, a: P.Action, base: World, log: seq<Entry>, s': Floor, cmd: Command)
    requires Follows(s, base, log) && !(a.Commit? && a.txn in s.staged)
    requires s' == DoProtocol(keyOf, me, s, a) && cmd == BurnVersions(Draws(s, s'))
    ensures Follows(s', base, log + [Meanwhile(cmd)])
  {
    ProtocolDraws(keyOf, s.server, a);
    BurnMovesTheSequence(s.world, s'.server.nextVersion);
    MeanwhileFollows(s, s', cmd, base, log);
  }

  lemma {:induction false} ProtocolDraws(keyOf: nat -> int, server: P.Server, a: P.Action)
    ensures server.nextVersion <= P.Next(keyOf, server, a).nextVersion
    ensures a.Commit? ==> P.Next(keyOf, server, a).nextVersion == server.nextVersion
  {
  }

  /** A commit publishes what its transaction saw, which is what the log committed comes to. */
  lemma {:induction false} PublishFollows(
      keyOf: nat -> int, me: nat, s: Floor, a: P.Action, base: World, log: seq<Entry>, s': Floor)
    requires FloorOk(keyOf, me, s) && Follows(s, base, log) && a.Commit? && a.txn in s.staged
    requires s' == DoProtocol(keyOf, me, s, a)
    ensures s'.staged == map[] && Draws(s, s') == 0
    ensures s'.world == Bare(Seen(s, a.txn), s'.server.nextVersion)
    ensures Same(s'.world, After(base, Committed(log)))
  {
    CommitEndsWork(keyOf, me, s, a.txn, a.result);
    PublishLeaves(keyOf, me, s, a, s');
    assert Seen(s, a.txn).books.nextVersion == s.world.books.nextVersion;
  }

  lemma {:induction false} PublishLeaves(keyOf: nat -> int, me: nat, s: Floor, a: P.Action, s': Floor)
    requires a.Commit? && a.txn in s.staged && s' == DoProtocol(keyOf, me, s, a)
    ensures s'.server == P.DoCommit(s.server, a.txn, a.result)
    ensures s'.server.nextVersion == s.server.nextVersion
    ensures s'.world == Bare(Seen(s, a.txn), s'.server.nextVersion)
    ensures s'.staged == StillAtWork(s.staged, s'.server, me)
  {
  }

  lemma {:induction false} CommitEndsWork(keyOf: nat -> int, me: nat, s: Floor, t: nat, result: int)
    requires FloorOk(keyOf, me, s) && t in s.staged
    ensures StillAtWork(s.staged, P.DoCommit(s.server, t, result), me) == map[]
  {
    forall u | u in s.staged ensures u == t {
      OneAtWork(keyOf, s.server, me, t, u);
    }
  }

  lemma {:induction false} NothingBurnt(w: World)
    ensures Same(Step(w, Do(BurnVersions(0))), w)
  {
  }

  lemma {:induction false} BurningNothing(w: World, events: seq<FeedEvent>, v: World)
    requires v == After(w, events)
    ensures Same(After(w, events + [Do(BurnVersions(0))]), v)
  {
    AfterFront(w, events + [Do(BurnVersions(0))], events, Do(BurnVersions(0)));
    NothingBurnt(v);
  }

  // ---- a pull ------------------------------------------------------------------

  lemma {:induction false} AbandonedKeepsFeed(w: World, log: seq<Entry>)
    requires LogOk(log)
    ensures SameFeed(w, After(w, Abandoned(log)))
  {
    if log != [] {
      var rest, last := log[..|log| - 1], log[|log| - 1];
      var cmd := if last.Own? then BurnVersions(last.drawn) else last.cmd;
      AbandonedKeepsFeed(w, rest);
      AfterOneMore(w, Abandoned(rest), Do(cmd));
      OneMoreKeepsFeed(w, After(w, Abandoned(rest)), cmd);
    }
  }

  lemma {:induction false} OneMoreKeepsFeed(w: World, v: World, cmd: Command)
    requires SameFeed(w, v) && IsUnlocked(cmd)
    ensures SameFeed(w, Step(v, Do(cmd)))
  {
    UnlockedKeepsFeed(v, cmd);
  }

  function Moved(w: World, client: Client, cursor: nat): World {
    w.(client := client, cursor := cursor)
  }

  /** Where the client stands makes no difference to the tables. */
  lemma {:induction false} ClientsStandAside(w: World, client: Client, cursor: nat, events: seq<FeedEvent>)
    requires forall k :: 0 <= k < |events| ==> !events[k].Pull?
    ensures After(Moved(w, client, cursor), events) == Moved(After(w, events), client, cursor)
  {
    if events != [] {
      ClientsStandAside(w, client, cursor, events[..|events| - 1]);
    }
  }

  lemma {:induction false} LogHasNoPulls(log: seq<Entry>)
    requires LogOk(log)
    ensures forall k :: 0 <= k < |Committed(log)| ==> !Committed(log)[k].Pull?
    ensures forall k :: 0 <= k < |Abandoned(log)| ==> !Abandoned(log)[k].Pull?
  {
    if log != [] {
      LogHasNoPulls(log[..|log| - 1]);
    }
  }

  lemma {:induction false} PullMoves(w: World, v: World, limit: int)
    requires SameFeed(w, v)
    ensures var w', v' := Step(w, Pull(limit)), Step(v, Pull(limit));
            w' == Moved(w, v'.client, v'.cursor) && v' == Moved(v, v'.client, v'.cursor)
  {
    assert Snapshot(w) == Snapshot(v);
  }

  /** A pull can go before everything in the log. */
  lemma {:induction false} FetchFollows(s: Floor, limit: int, base: World, log: seq<Entry>, s': Floor)
    requires Follows(s, base, log) && LogOk(log)
    requires s' == s.(world := Step(s.world, Pull(limit)))
    ensures Follows(s', Step(base, Pull(limit)), log)
  {
    var base' := Step(base, Pull(limit));
    AbandonedKeepsFeed(base, log);
    PullMoves(s.world, base, limit);
    LogHasNoPulls(log);
    ClientsStandAside(base, base'.client, base'.cursor, Abandoned(log));
    ClientsStandAside(base, base'.client, base'.cursor, Committed(log));
    forall t | t in s'.staged ensures Same(Seen(s', t), After(base', Committed(log))) {
      assert Seen(s', t) == Moved(Seen(s, t), base'.client, base'.cursor);
    }
  }

  // ---- one move ----------------------------------------------------------------

  lemma {:induction false} DrawnKeeps(keyOf: nat -> int, server: P.Server, next: nat)
    requires IsProtocolRun(keyOf, server) && server.nextVersion <= next
    ensures IsProtocolRun(keyOf, Drawn(server, next))
  {
    if next == server.nextVersion {
      assert Drawn(server, next) == server;
    } else {
      var before: nat := next - 1;
      DrawnKeeps(keyOf, server, before);
      ProtocolRunGoesOn(keyOf, Drawn(server, before), P.Burn);
      assert P.Next(keyOf, Drawn(server, before), P.Burn) == Drawn(server, next);
    }
  }

  lemma {:induction false} ProtocolKeepsFloor(keyOf: nat -> int, me: nat, s: Floor, a: P.Action)
    requires FloorOk(keyOf, me, s)
    ensures FloorOk(keyOf, me, DoProtocol(keyOf, me, s, a))
  {
    ProtocolRunGoesOn(keyOf, s.server, a);
  }

  lemma {:induction false} WorkedKeepsFloor(
      keyOf: nat -> int, me: nat, s: Floor, t: nat, after: World, refused: bool, s': Floor)
    requires FloorOk(keyOf, me, s) && AtWork(s.server, me, t) && s' == Worked(s, t, after, refused)
    requires s.server.nextVersion <= s'.server.nextVersion
    ensures FloorOk(keyOf, me, s')
  {
    var drawn := Drawn(s.server, s'.server.nextVersion);
    DrawnKeeps(keyOf, s.server, s'.server.nextVersion);
    ProtocolRunGoesOn(keyOf, drawn, P.Rollback(t));
    WorkedStages(me, s, t, after, refused, s');
  }

  lemma {:induction false} WorkedStages(me: nat, s: Floor, t: nat, after: World, refused: bool, s': Floor)
    requires (forall u :: u in s.staged ==> AtWork(s.server, me, u)) && AtWork(s.server, me, t)
    requires s' == Worked(s, t, after, refused)
    ensures forall u :: u in s'.staged ==> AtWork(s'.server, me, u)
  {
  }

  ghost predicate ScriptOk(base: World, script: Script, s: Floor) {
    LogOk(script.log) && Follows(s, base, script.log) && (s.staged == map[] ==> script.log == [])
  }

  /** With nobody at work the log is settled as abandoned. */
  lemma {:induction false} Settles(base: World, log: seq<Entry>, s: Floor)
    requires Follows(s, base, log) && s.staged == map[]
    ensures Follows(s, After(base, Abandoned(log)), [])
  {
  }

  lemma {:induction false} NothingFollows(s: Floor, base: World, log: seq<Entry>, x: Entry)
    requires Follows(s, base, log) && x == Meanwhile(BurnVersions(0))
    ensures Follows(s, base, log + [x])
  {
    BurnMovesTheSequence(s.world, s.world.books.nextVersion);
    MeanwhileFollows(s, s, x.cmd, base, log);
  }

  lemma {:induction false} PerformKeepsFloor(
      keyOf: nat -> int, me: nat, s: Floor, t: nat, e: FeedEvent, s': Floor)
    requires FloorOk(keyOf, me, s) && s' == DoPerform(me, s, t, e) && s.server.nextVersion <= s'.server.nextVersion
    ensures FloorOk(keyOf, me, s')
  {
    if AtWork(s.server, me, t) && IsWork(e) {
      WorkedKeepsFloor(keyOf, me, s, t, Step(Seen(s, t), e), Refused(Seen(s, t), e), s');
    }
  }

  lemma {:induction false} UnlockedDraws(w: World, cmd: Command)
    requires IsUnlocked(cmd)
    ensures w.books.nextVersion <= Step(w, Do(cmd)).books.nextVersion
  {
  }

  lemma {:induction false} UnlockedLogFollows(
      keyOf: nat -> int, me: nat, s: Floor, cmd: Command, base: World, log: seq<Entry>, s': Floor, x: Entry)
    requires FloorOk(keyOf, me, s) && Follows(s, base, log)
    requires s' == Next(keyOf, me, s, Unlocked(cmd)) && x == NewEntry(me, s, Unlocked(cmd), s')
    ensures FloorOk(keyOf, me, s') && Follows(s', base, log + [x]) && x.Meanwhile? && IsUnlocked(x.cmd)
  {
    if IsUnlocked(cmd) {
      UnlockedDraws(s.world, cmd);
      DrawnKeeps(keyOf, s.server, s'.server.nextVersion);
      MeanwhileFollows(s, s', cmd, base, log);
    } else {
      NothingFollows(s, base, log, x);
    }
  }

  /** The play so far, and the floor after it. */
  ghost predicate PlayedTo(keyOf: nat -> int, me: nat, today: Date, startDay: StartDay, s: Floor, script: Script) {
    FloorOk(keyOf, me, s) && ScriptOk(Play(today, startDay, script.done), script, s)
  }

  lemma {:induction false} PlaysGoOn(today: Date, startDay: StartDay, done: seq<FeedEvent>, more: seq<FeedEvent>)
    ensures Play(today, startDay, done + more) == After(Play(today, startDay, done), more)
  {
    AfterJoin(Begin(today, startDay), done, more, done + more);
  }

  lemma {:induction false} FetchOk(
      keyOf: nat -> int, me: nat, today: Date, startDay: StartDay, s: Floor, limit: int, script: Script, s': Floor)
    requires PlayedTo(keyOf, me, today, startDay, s, script)
    requires s' == s.(world := Step(s.world, Pull(limit)))
    ensures PlayedTo(keyOf, me, today, startDay, s', script.(done := script.done + [Pull(limit)]))
  {
    FetchFollows(s, limit, Play(today, startDay, script.done), script.log, s');
    AfterOneMore(Begin(today, startDay), script.done, Pull(limit));
  }

  /** A commit settles the log as its transaction's work. */
  lemma {:induction false} PublishedOk(
      keyOf: nat -> int, me: nat, today: Date, startDay: StartDay, s: Floor, a: P.Action, script: Script, s': Floor)
    requires PlayedTo(keyOf, me, today, startDay, s, script) && a.Commit? && a.txn in s.staged
    requires s' == DoProtocol(keyOf, me, s, a)
    ensures var log := script.log + [Meanwhile(BurnVersions(Draws(s, s')))];
            PlayedTo(keyOf, me, today, startDay, s', Script(script.done + Committed(log), []))
  {
    var base, log := Play(today, startDay, script.done), script.log + [Meanwhile(BurnVersions(0))];
    PublishFollows(keyOf, me, s, a, base, script.log, s');
    ProtocolKeepsFloor(keyOf, me, s, a);
    LogGrows(script.log, Meanwhile(BurnVersions(0)));
    BurningNothing(base, Committed(script.log), After(base, Committed(script.log)));
    PlaysGoOn(today, startDay, script.done, Committed(log));
  }

  /** With nobody at work the log is settled as abandoned; otherwise it stands. */
  lemma {:induction false} LoggedOk(
      keyOf: nat -> int, me: nat, today: Date, startDay: StartDay, done: seq<FeedEvent>, log: seq<Entry>, s': Floor)
    requires FloorOk(keyOf, me, s') && LogOk(log) && Follows(s', Play(today, startDay, done), log)
    ensures PlayedTo(keyOf, me, today, startDay, s',
                     if s'.staged == map[] then Script(done + Abandoned(log), []) else Script(done, log))
  {
    if s'.staged == map[] {
      Settles(Play(today, startDay, done), log, s');
      PlaysGoOn(today, startDay, done, Abandoned(log));
    }
  }

  lemma {:induction false} NewEntryOk(me: nat, s: Floor, m: Move, s': Floor, log: seq<Entry>)
    requires LogOk(log)
    ensures LogOk(log + [NewEntry(me, s, m, s')])
  {
  }

  lemma {:induction false} ProtocolLogged(
      keyOf: nat -> int, me: nat, s: Floor, a: P.Action, base: World, log: seq<Entry>, s': Floor, x: Entry)
    requires FloorOk(keyOf, me, s) && Follows(s, base, log) && !(a.Commit? && a.txn in s.staged)
    requires s' == DoProtocol(keyOf, me, s, a) && x == Meanwhile(BurnVersions(Draws(s, s')))
    ensures FloorOk(keyOf, me, s') && Follows(s', base, log + [x])
  {
    ProtocolFollows(keyOf, me, s, a, base, log, s', x.cmd);
    ProtocolKeepsFloor(keyOf, me, s, a);
  }

  lemma {:induction false} WorkLogged(
      keyOf: nat -> int, me: nat, s: Floor, t: nat, e: FeedEvent, base: World, log: seq<Entry>, s': Floor, x: Entry)
    requires FloorOk(keyOf, me, s) && IsPlay(base) && Follows(s, base, log) && AtWork(s.server, me, t) && IsWork(e)
    requires s.staged == map[] ==> log == []
    requires s' == DoPerform(me, s, t, e) && x == Own(e, Draws(s, s'))
    ensures FloorOk(keyOf, me, s') && Follows(s', base, log + [x])
  {
    PerformFollows(keyOf, me, s, t, e, base, log, s', x);
    PerformKeepsFloor(keyOf, me, s, t, e, s');
  }

  lemma {:induction false} PerformLogged(
      keyOf: nat -> int, me: nat, s: Floor, t: nat, e: FeedEvent, base: World, log: seq<Entry>, s': Floor, x: Entry)
    requires FloorOk(keyOf, me, s) && IsPlay(base) && Follows(s, base, log) && (s.staged == map[] ==> log == [])
    requires s' == DoPerform(me, s, t, e) && x == NewEntry(me, s, Perform(t, e), s')
    ensures FloorOk(keyOf, me, s') && Follows(s', base, log + [x])
  {
    if AtWork(s.server, me, t) && IsWork(e) {
      WorkLogged(keyOf, me, s, t, e, base, log, s', x);
    } else {
      NothingFollows(s, base, log, x);
    }
  }

  lemma {:induction false} MoveLogged(
      keyOf: nat -> int, me: nat, s: Floor, m: Move, base: World, log: seq<Entry>, s': Floor, x: Entry)
    requires FloorOk(keyOf, me, s) && IsPlay(base) && Follows(s, base, log) && (s.staged == map[] ==> log == [])
    requires s' == Next(keyOf, me, s, m) && x == NewEntry(me, s, m, s') && !m.Fetch? && !Publishes(s, m)
    ensures FloorOk(keyOf, me, s') && Follows(s', base, log + [x])
  {
    match m
    case Protocol(a) => ProtocolLogged(keyOf, me, s, a, base, log, s', x);
    case Unlocked(cmd) => UnlockedLogFollows(keyOf, me, s, cmd, base, log, s', x);
    case Perform(t, e) => PerformLogged(keyOf, me, s, t, e, base, log, s', x);
  }

  lemma {:induction false} LoggedMoveOk(
      keyOf: nat -> int, me: nat, today: Date, startDay: StartDay, s: Floor, m: Move, script: Script, s': Floor)
    requires PlayedTo(keyOf, me, today, startDay, s, script) && s' == Next(keyOf, me, s, m)
    requires !m.Fetch? && !Publishes(s, m)
    ensures PlayedTo(keyOf, me, today, startDay, s', NextScript(me, s, m, s', script))
  {
    var x := NewEntry(me, s, m, s');
    MoveLogged(keyOf, me, s, m, Play(today, startDay, script.done), script.log, s', x);
    NewEntryOk(me, s, m, s', script.log);
    LoggedOk(keyOf, me, today, startDay, script.done, script.log + [x], s');
  }

  lemma {:induction false} MoveOk(
      keyOf: nat -> int, me: nat, today: Date, startDay: StartDay, s: Floor, m: Move, script: Script, s': Floor)
    requires PlayedTo(keyOf, me, today, startDay, s, script) && s' == Next(keyOf, me, s, m)
    ensures PlayedTo(keyOf, me, today, startDay, s', NextScript(me, s, m, s', script))
  {
    if m.Fetch? {
      FetchOk(keyOf, me, today, startDay, s, m.limit, script, s');
    } else if Publishes(s, m) {
      PublishedOk(keyOf, me, today, startDay, s, m.action, script, s');
    } else {
      LoggedMoveOk(keyOf, me, today, startDay, s, m, script, s');
    }
  }

  // ---- every interleaving ------------------------------------------------------

  lemma {:induction false} OpenedOk(keyOf: nat -> int, me: nat, today: Date, startDay: StartDay)
    ensures PlayedTo(keyOf, me, today, startDay, Opened(today, startDay), Script([], []))
  {
    assert P.Start() == P.Run(keyOf, []);
  }

  lemma {:induction false} RunIsPlayed(
      keyOf: nat -> int, me: nat, today: Date, startDay: StartDay, moves: seq<Move>)
    ensures PlayedTo(keyOf, me, today, startDay, RunMoves(keyOf, me, today, startDay, moves),
                     ScriptOf(keyOf, me, today, startDay, moves))
  {
    if moves == [] {
      OpenedOk(keyOf, me, today, startDay);
    } else {
      var rest := moves[..|moves| - 1];
      RunIsPlayed(keyOf, me, today, startDay, rest);
      MoveOk(keyOf, me, today, startDay, RunMoves(keyOf, me, today, startDay, rest), moves[|moves| - 1],
             ScriptOf(keyOf, me, today, startDay, rest), RunMoves(keyOf, me, today, startDay, moves));
    }
  }

  /** Every interleaving leaves the committed books, and the client, exactly as a sequence of
      whole commands and pulls does, so that they are the books of a run of those commands;
      and the protocol underneath is in a state that it reaches by itself. */
  lemma {:induction false} InterleavingsAreSerial(
      keyOf: nat -> int, me: nat, today: Date, startDay: StartDay, moves: seq<Move>)
    ensures var w := RunMoves(keyOf, me, today, startDay, moves).world;
            var events := SerialPlay(keyOf, me, today, startDay, moves);
            Same(w, Play(today, startDay, events))
            && w.books == Run(today, startDay, Commands(events)) && Inv(w.books)
    ensures IsProtocolRun(keyOf, RunMoves(keyOf, me, today, startDay, moves).server)
  {
    var script := ScriptOf(keyOf, me, today, startDay, moves);
    RunIsPlayed(keyOf, me, today, startDay, moves);
    PlaysGoOn(today, startDay, script.done, Abandoned(script.log));
    PlaysAreRuns(today, startDay, SerialPlay(keyOf, me, today, startDay, moves));
    PlayFollows(today, startDay, SerialPlay(keyOf, me, today, startDay, moves));
  }

  // ---- what each move does -----------------------------------------------------

  /** An event of work is done on what its transaction sees. Accepted, that is what the
      transaction sees from then on, and nobody else; refused, the transaction is rolled back
      with all its work. Either way what is committed stands, its versions aside. */
  lemma {:induction false} PerformsExactly(
      keyOf: nat -> int, me: nat, today: Date, startDay: StartDay, moves: seq<Move>, t: nat, e: FeedEvent, s: Floor,
      s': Floor)
    requires s == RunMoves(keyOf, me, today, startDay, moves) && s' == Next(keyOf, me, s, Perform(t, e))
    requires AtWork(s.server, me, t) && IsWork(e)
    ensures s'.world == Bare(s.world, s'.server.nextVersion)
    ensures s'.staged.Keys - {t} == s.staged.Keys - {t}
    ensures if Refused(Seen(s, t), e) then t !in s'.server.txns && t !in s'.staged
            else t in s'.staged && AtWork(s'.server, me, t) && Same(Seen(s', t), Step(Seen(s, t), e))
  {
    var script := ScriptOf(keyOf, me, today, startDay, moves);
    RunIsPlayed(keyOf, me, today, startDay, moves);
    WorksOnTheLog(keyOf, me, s, t, Play(today, startDay, script.done), script.log);
    WorkKeepsTerms(Seen(s, t), e);
    WorkedExactly(me, s, t, Step(Seen(s, t), e), Refused(Seen(s, t), e), s');
  }

  lemma {:induction false} WorkedExactly(me: nat, s: Floor, t: nat, after: World, refused: bool, s': Floor)
    requires s' == Worked(s, t, after, refused) && AtWork(s.server, me, t) && KeepsTerms(Seen(s, t), after)
    ensures s'.world == Bare(s.world, s'.server.nextVersion)
    ensures s'.staged.Keys - {t} == s.staged.Keys - {t}
    ensures if refused then t !in s'.server.txns && t !in s'.staged
            else t in s'.staged && AtWork(s'.server, me, t) && Same(Seen(s', t), after)
  {
    SeenTerms(s, t);
    SeesItsWork(Seen(s, t), s.world, after);
  }

  /** What is committed changes by the commit of a transaction at work, to what it saw; by a
      step of the protocol otherwise not at all, its versions aside. */
  lemma {:induction false} PublishesExactly(
      keyOf: nat -> int, me: nat, today: Date, startDay: StartDay, moves: seq<Move>, a: P.Action, s: Floor, s': Floor)
    requires s == RunMoves(keyOf, me, today, startDay, moves) && s' == Next(keyOf, me, s, Protocol(a))
    ensures if a.Commit? && a.txn in s.staged
            then s'.world == Bare(Seen(s, a.txn), s'.server.nextVersion)
                 && a.txn !in s'.server.txns && s'.staged == map[]
            else s'.world == Bare(s.world, s'.server.nextVersion)
  {
    RunIsPlayed(keyOf, me, today, startDay, moves);
    if a.Commit? && a.txn in s.staged {
      PublishLeaves(keyOf, me, s, a, s');
      CommitEndsWork(keyOf, me, s, a.txn, a.result);
      assert AtWork(s.server, me, a.txn);
    } else {
      BareIsItself(s.world, s.server.nextVersion);
    }
  }

  lemma {:induction false} BareIsItself(w: World, next: nat)
    requires w.tables == [] && w.books.nextVersion == next
    ensures Bare(w, next) == w
  {
  }

  /** At every cursor and page boundary, whatever is in flight, the client holds at most one
      ACTIVE record per customer and date. */
  lemma {:induction false} OneActivePerSlot(
      keyOf: nat -> int, me: nat, today: Date, startDay: StartDay, moves: seq<Move>, i: nat, j: nat)
    requires var store := RunMoves(keyOf, me, today, startDay, moves).world.client.records;
             i in store && j in store && i != j && store[i].status == Active && store[j].status == Active
    ensures var store := RunMoves(keyOf, me, today, startDay, moves).world.client.records; !SameSlot(store[i], store[j])
  {
    InterleavingsAreSerial(keyOf, me, today, startDay, moves);
    BooksClients.OneActivePerSlot(today, startDay, SerialPlay(keyOf, me, today, startDay, moves), i, j);
  }

  /** A client that holds a replacement also holds the supersession it explains. */
  lemma {:induction false} ReplacementBringsSupersession(
      keyOf: nat -> int, me: nat, today: Date, startDay: StartDay, moves: seq<Move>, j: nat)
    requires var store := RunMoves(keyOf, me, today, startDay, moves).world.client.records;
             j in store && store[j].corrects.Some?
    ensures var store := RunMoves(keyOf, me, today, startDay, moves).world.client.records;
            var i := store[j].corrects.value;
            i in store && store[i].status == Superseded && store[i].supersededBy == Some(j)
            && store[i].version < store[j].version
  {
    InterleavingsAreSerial(keyOf, me, today, startDay, moves);
    BooksClients.ReplacementBringsSupersession(today, startDay, SerialPlay(keyOf, me, today, startDay, moves), j);
  }

  /** The client has every committed record up to its cursor as it is now, and any other it
      has ended above the cursor. */
  lemma {:induction false} CopiesAreCurrentOrEnding(
      keyOf: nat -> int, me: nat, today: Date, startDay: StartDay, moves: seq<Move>, i: nat)
    requires i < |RunMoves(keyOf, me, today, startDay, moves).world.books.records|
    ensures var w := RunMoves(keyOf, me, today, startDay, moves).world;
            var r := w.books.records[i];
            (r.version <= w.cursor ==> i in w.client.records && w.client.records[i] == r)
            && (w.cursor < r.version && i in w.client.records ==>
                  w.client.records[i].status == Active && r.status != Active && SameSlot(w.client.records[i], r))
  {
    InterleavingsAreSerial(keyOf, me, today, startDay, moves);
    BooksClients.CopiesAreCurrentOrEnding(today, startDay, SerialPlay(keyOf, me, today, startDay, moves), i);
  }

  /** Of every table, whatever is in flight, the client has every committed row up to its
      cursor as it is now, and beyond that only what an earlier write had left. */
  lemma {:induction false} TablesAreHeld(
      keyOf: nat -> int, me: nat, today: Date, startDay: StartDay, moves: seq<Move>, w: World)
    requires w == RunMoves(keyOf, me, today, startDay, moves).world
    ensures BooksCopies.HoldsTables(w.client, w.tenant, w.books, w.cursor)
    ensures BooksCopies.HoldsNothingElse(w.client, w.books, w.cursor)
  {
    var events := SerialPlay(keyOf, me, today, startDay, moves);
    InterleavingsAreSerial(keyOf, me, today, startDay, moves);
    BooksCopies.TablesAreHeld(today, startDay, events, Play(today, startDay, events));
    BooksCopies.NothingElseIsHeld(today, startDay, events, Play(today, startDay, events));
  }
}
