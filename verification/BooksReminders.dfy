/** The reminder engine beside the books it reads. Every change of the books reaches the
    engine's view of it: the balances, the latest statements and the day. So what a reminder
    carries is what the books say when it is sent. */
module BooksReminders {
  import opened Outcomes
  import opened Calendar
  import opened Records
  import opened Payments
  import opened Commission
  import opened Ledger
  import opened Books
  import opened BooksInvariants
  import opened BooksClosing
  import opened BooksRuns
  import opened BooksBalance
  import opened BooksReports
  import opened Schedule
  import F = BooksFeed
  import R = Reminders
  import Safety = RemindersSafety
  import Effects = RemindersEffects

  datatype Office = Office(books: Books, desk: R.Desk)

  /** A command on the books, or an action of the engine. */
  datatype OfficeEvent = Business(cmd: Command) | Engine(action: R.Action)

  // ---- what the engine reads of the books --------------------------------------

  /** A balance changed with each new entry. */
  function OweNotices(es: seq<Entry>, n: nat): seq<R.Action>
    requires n <= |es|
    decreases |es|
  {
    if |es| == n then []
    else
      var c := es[|es| - 1].customer;
      OweNotices(es[..|es| - 1], n) + [R.Owe(c, Outstanding(es, Some(c), None))]
  }

  /** A cycle became current with each new statement. */
  function CycleNotices(ss: seq<Statement>, n: nat): seq<R.Action>
    requires n <= |ss|
    decreases |ss|
  {
    if |ss| == n then []
    else CycleNotices(ss[..|ss| - 1], n) + [R.NewCycle(ss[|ss| - 1].customer, ss[|ss| - 1].cycle)]
  }

  /** What a change of the books tells the engine. */
  function Notices(b: Books, b': Books): seq<R.Action> {
    [R.SetDay(b'.today.day)]
    + (if |b.ledger| <= |b'.ledger| then OweNotices(b'.ledger, |b.ledger|) else [])
    + (if |b.statements| <= |b'.statements| then CycleNotices(b'.statements, |b.statements|) else [])
  }

  function After(d: R.Desk, actions: seq<R.Action>): R.Desk {
    if actions == [] then d else R.Next(After(d, actions[..|actions| - 1]), actions[|actions| - 1])
  }

  /** Only the books tell the engine about balances, statements and days. */
  predicate Informs(a: R.Action) {
    a.Owe? || a.NewCycle? || a.SetDay?
  }

  function StepActions(o: Office, e: OfficeEvent): seq<R.Action> {
    match e
    case Business(cmd) => Notices(o.books, Apply(o.books, cmd).books)
    case Engine(a) => if Informs(a) then [] else [a]
  }

  function Step(o: Office, e: OfficeEvent): Office {
    Office(if e.Business? then Apply(o.books, e.cmd).books else o.books, After(o.desk, StepActions(o, e)))
  }

  function Open(today: Date, startDay: StartDay, schedule: seq<Stage>): Office {
    Office(Initial(today, startDay), R.Start(schedule, today.day))
  }

  function Play(today: Date, startDay: StartDay, schedule: seq<Stage>, events: seq<OfficeEvent>): Office {
    if events == [] then Open(today, startDay, schedule)
    else Step(Play(today, startDay, schedule, events[..|events| - 1]), events[|events| - 1])
  }

  /** Everything the engine did or was told. */
  function Actions(today: Date, startDay: StartDay, schedule: seq<Stage>, events: seq<OfficeEvent>): seq<R.Action> {
    if events == [] then []
    else
      var before := events[..|events| - 1];
      Actions(today, startDay, schedule, before)
        + StepActions(Play(today, startDay, schedule, before), events[|events| - 1])
  }

  lemma {:induction false} AfterJoins(schedule: seq<Stage>, day: int, xs: seq<R.Action>, ys: seq<R.Action>)
    ensures R.Run(schedule, day, xs + ys) == After(R.Run(schedule, day, xs), ys)
  {
    if ys == [] {
      assert xs + ys == xs;
    } else {
      var all, rest := xs + ys, ys[..|ys| - 1];
      AfterJoins(schedule, day, xs, rest);
      assert R.Run(schedule, day, all) == R.Next(R.Run(schedule, day, xs + rest), ys[|ys| - 1]) by {
        assert all == (xs + rest) + [all[|all| - 1]];
        LastAction(schedule, day, all, xs + rest);
      }
    }
  }

  lemma {:induction false} LastAction(schedule: seq<Stage>, day: int, actions: seq<R.Action>, rest: seq<R.Action>)
    requires actions != [] && actions == rest + [actions[|actions| - 1]]
    ensures R.Run(schedule, day, actions) == R.Next(R.Run(schedule, day, rest), actions[|actions| - 1])
  {
    assert actions[..|actions| - 1] == rest;
  }

  /** The engine beside the books is a run of the engine, so every result about its runs
      holds of it. */
  lemma {:induction false} OfficesAreRuns(
      today: Date, startDay: StartDay, schedule: seq<Stage>, events: seq<OfficeEvent>)
    ensures Play(today, startDay, schedule, events).desk
            == R.Run(schedule, today.day, Actions(today, startDay, schedule, events))
  {
    if events != [] {
      var before := events[..|events| - 1];
      var o := Play(today, startDay, schedule, before);
      OfficesAreRuns(today, startDay, schedule, before);
      AfterJoins(schedule, today.day, Actions(today, startDay, schedule, before), StepActions(o, events[|events| - 1]));
    }
  }

  // ---- what ties the two -------------------------------------------------------

  /** The engine's balances are the ledger's. */
  ghost predicate OwesLike(es: seq<Entry>, d: R.Desk) {
    forall c: nat :: R.Owed(d, c) == Outstanding(es, Some(c), None)
  }

  /** The customer's newest statement. */
  function LatestStatement(ss: seq<Statement>, customer: nat): (r: Option<nat>)
    ensures r.Some? ==> r.value < |ss| && ss[r.value].customer == customer
    ensures forall i :: 0 <= i < |ss| && ss[i].customer == customer ==> r.Some? && i <= r.value
  {
    if ss == [] then None
    else if ss[|ss| - 1].customer == customer then Some(|ss| - 1)
    else LatestStatement(ss[..|ss| - 1], customer)
  }

  /** The engine's current cycle of a customer is that of the newest statement. */
  ghost predicate BilledLike(ss: seq<Statement>, d: R.Desk) {
    forall c: nat ::
      match LatestStatement(ss, c)
      case None => c !in d.cycles
      case Some(s) => c in d.cycles && d.cycles[c] == ss[s].cycle
  }

  /** Stage rows exist for closed cycles only. */
  ghost predicate RowsAreOfClosed(reminders: seq<R.Reminder>, cycles: seq<Cycle>) {
    forall i :: 0 <= i < |reminders| ==> reminders[i].slot.cycle < |cycles| && !cycles[reminders[i].slot.cycle].open
  }

  ghost predicate Tied(b: Books, d: R.Desk) {
    OwesLike(b.ledger, d) && BilledLike(b.statements, d) && d.day == b.today.day
      && RowsAreOfClosed(d.reminders, b.cycles)
  }

  // ---- a command ---------------------------------------------------------------

  /** The notices change what they are about, and nothing else. */
  lemma {:induction false} OweNoticesTell(es: seq<Entry>, n: nat, d: R.Desk)
    requires n <= |es| && OwesLike(es[..n], d)
    ensures var d' := After(d, OweNotices(es, n)); OwesLike(es, d') && d' == d.(owed := d'.owed)
    decreases |es|
  {
    if n < |es| {
      var last: nat := |es| - 1;
      var before, e := OweNotices(es[..last], n), es[last];
      assert es[..last][..n] == es[..n] && es == es[..last] + [e];
      OweNoticesTell(es[..last], n, d);
      assert (before + [R.Owe(e.customer, Outstanding(es, Some(e.customer), None))])[..|before|] == before;
      OneOweTells(es[..last], e, After(d, before));
    } else {
      assert es[..n] == es;
    }
  }

  lemma {:induction false} OneOweTells(es: seq<Entry>, e: Entry, d: R.Desk)
    requires OwesLike(es, d)
    ensures OwesLike(es + [e], R.Next(d, R.Owe(e.customer, Outstanding(es + [e], Some(e.customer), None))))
  {
    var d' := R.Next(d, R.Owe(e.customer, Outstanding(es + [e], Some(e.customer), None)));
    forall c: nat ensures R.Owed(d', c) == Outstanding(es + [e], Some(c), None) {
      SumAppend(es, e, Some(c), None, Whole);
      assert R.Owed(d, c) == Outstanding(es, Some(c), None);
    }
  }

  /** No stage row belongs to the cycle these statements bill. */
  ghost predicate FreshFrom(ss: seq<Statement>, n: nat, reminders: seq<R.Reminder>) {
    forall i, k :: n <= i < |ss| && 0 <= k < |reminders| ==> reminders[k].slot.cycle != ss[i].cycle
  }

  lemma {:induction false} CycleNoticesTell(ss: seq<Statement>, n: nat, d: R.Desk)
    requires n <= |ss| && BilledLike(ss[..n], d) && FreshFrom(ss, n, d.reminders)
    ensures var d' := After(d, CycleNotices(ss, n)); BilledLike(ss, d') && d' == d.(cycles := d'.cycles)
    decreases |ss|
  {
    if n < |ss| {
      var last: nat := |ss| - 1;
      var before, s := CycleNotices(ss[..last], n), ss[last];
      assert ss[..last][..n] == ss[..n] && ss == ss[..last] + [s];
      CycleNoticesTell(ss[..last], n, d);
      assert (before + [R.NewCycle(s.customer, s.cycle)])[..|before|] == before;
      OneCycleTells(ss[..last], s, After(d, before));
    } else {
      assert ss[..n] == ss;
    }
  }

  lemma {:induction false} OneCycleTells(ss: seq<Statement>, s: Statement, d: R.Desk)
    requires BilledLike(ss, d) && forall k :: 0 <= k < |d.reminders| ==> d.reminders[k].slot.cycle != s.cycle
    ensures var d' := R.Next(d, R.NewCycle(s.customer, s.cycle));
            BilledLike(ss + [s], d') && d' == d.(cycles := d'.cycles)
  {
    var d', ss' := R.Next(d, R.NewCycle(s.customer, s.cycle)), ss + [s];
    assert d' == d.(cycles := d.cycles[s.customer := s.cycle]);
    assert ss'[..|ss|] == ss;
    forall c: nat
      ensures match LatestStatement(ss', c)
              case None => c !in d'.cycles
              case Some(x) => c in d'.cycles && d'.cycles[c] == ss'[x].cycle
    {
      if c != s.customer {
        assert LatestStatement(ss', c) == LatestStatement(ss, c);
      }
    }
  }

  lemma {:induction false} AfterSplits(d: R.Desk, xs: seq<R.Action>, ys: seq<R.Action>)
    ensures After(d, xs + ys) == After(After(d, xs), ys)
  {
    if ys == [] {
      assert xs + ys == xs;
    } else {
      var last: nat := |ys| - 1;
      var all := xs + ys;
      AfterSplits(d, xs, ys[..last]);
      assert all[..|all| - 1] == xs + ys[..last] && all[|all| - 1] == ys[last];
    }
  }

  lemma {:induction false} OneAction(d: R.Desk, a: R.Action)
    ensures After(d, [a]) == R.Next(d, a)
  {
    assert [a][..0] == [];
  }

  /** The three parts of a notice, one after the other. */
  lemma {:induction false} NoticesTell(b: Books, b': Books, d: R.Desk)
    requires Tied(b, d) && b.ledger <= b'.ledger && b.statements <= b'.statements
    requires FreshFrom(b'.statements, |b.statements|, d.reminders) && RowsAreOfClosed(d.reminders, b'.cycles)
    ensures Tied(b', After(d, Notices(b, b')))
  {
    var owes, bills := OweNotices(b'.ledger, |b.ledger|), CycleNotices(b'.statements, |b.statements|);
    var d1 := After(d, [R.SetDay(b'.today.day)]);
    OneAction(d, R.SetDay(b'.today.day));
    assert b'.ledger[..|b.ledger|] == b.ledger && b'.statements[..|b.statements|] == b.statements;
    AfterSplits(d, [R.SetDay(b'.today.day)] + owes, bills);
    AfterSplits(d, [R.SetDay(b'.today.day)], owes);
    assert OwesLike(b.ledger, d1);
    OweNoticesTell(b'.ledger, |b.ledger|, d1);
    var d2 := After(d1, owes);
    assert BilledLike(b.statements, d2);
    CycleNoticesTell(b'.statements, |b.statements|, d2);
  }

  /** What a command may do to the tables the engine reads: add entries, add statements of an
      open cycle, close and open cycles. */
  ghost predicate TablesExtend(b: Books, x: Books) {
    b.ledger <= x.ledger && b.statements <= x.statements
    && |b.cycles| <= |x.cycles|
    && (forall k :: 0 <= k < |b.cycles| && !b.cycles[k].open ==> !x.cycles[k].open)
    && (forall i :: |b.statements| <= i < |x.statements| ==>
          x.statements[i].cycle < |b.cycles| && b.cycles[x.statements[i].cycle].open)
  }

  lemma {:induction false} TablesGrow(b: Books, cmd: Command, x: Books)
    requires Inv(b) && x == Apply(b, cmd).books
    ensures TablesExtend(b, x)
  {
    if IsPosting(cmd) {
      PostingGrows(b, cmd);
      GrownTables(b, x);
    } else if cmd.CloseCycleCmd? && Closable(b, cmd.cycle) {
      CloseEffect(b, cmd.cycle);
      ClosingGrows(b, cmd.cycle, x);
    } else {
      OthersKeepTables(b, cmd, x);
    }
  }

  lemma {:induction false} GrownTables(b: Books, x: Books)
    requires Grew(b, x)
    ensures TablesExtend(b, x)
  {
  }

  lemma {:induction false} ClosingGrows(b: Books, k: nat, x: Books)
    requires Closable(b, k) && ClosedAs(b, k, x)
    ensures TablesExtend(b, x)
  {
  }

  lemma {:induction false} OthersKeepTables(b: Books, cmd: Command, x: Books)
    requires !IsPosting(cmd) && !(cmd.CloseCycleCmd? && Closable(b, cmd.cycle)) && x == Apply(b, cmd).books
    ensures TablesExtend(b, x)
  {
  }

  lemma {:induction false} CommandKeepsTied(b: Books, d: R.Desk, cmd: Command, x: Books)
    requires Inv(b) && Tied(b, d) && x == Apply(b, cmd).books
    ensures Tied(x, After(d, Notices(b, x)))
  {
    TablesGrow(b, cmd, x);
    NoticesTell(b, x, d);
  }

  // ---- an action of the engine -------------------------------------------------

  /** Every current cycle is closed. */
  ghost predicate CurrentAreClosed(d: R.Desk, cycles: seq<Cycle>) {
    forall c :: c in d.cycles ==> d.cycles[c] < |cycles| && !cycles[d.cycles[c]].open
  }

  lemma {:induction false} BilledAreClosed(b: Books, d: R.Desk)
    requires Inv(b) && Tied(b, d)
    ensures CurrentAreClosed(d, b.cycles)
  {
    forall c | c in d.cycles ensures d.cycles[c] < |b.cycles| && !b.cycles[d.cycles[c]].open {
      var s := LatestStatement(b.statements, c);
      assert s.Some?;
    }
  }

  lemma {:induction false} DispatchKeepsRows(d: R.Desk, i: nat, accepted: bool, byRunner: bool, cycles: seq<Cycle>)
    requires RowsAreOfClosed(d.reminders, cycles)
    ensures var d' := R.Dispatch(d, i, accepted, byRunner);
            RowsAreOfClosed(d'.reminders, cycles) && d' == d.(reminders := d'.reminders, log := d'.log)
  {
  }

  lemma {:induction false} DispatchAllKeepsRows(d: R.Desk, due: seq<nat>, oracle: seq<bool>, cycles: seq<Cycle>)
    requires RowsAreOfClosed(d.reminders, cycles)
    ensures var d' := R.DispatchAll(d, due, oracle);
            RowsAreOfClosed(d'.reminders, cycles) && d' == d.(reminders := d'.reminders, log := d'.log)
  {
    if due != [] {
      var last: nat := |due| - 1;
      DispatchAllKeepsRows(d, due[..last], oracle, cycles);
      DispatchKeepsRows(R.DispatchAll(d, due[..last], oracle), due[last], R.Accepts(oracle, last), true, cycles);
    }
  }

  lemma {:induction false} AlertKeepsRows(d: R.Desk, i: nat, due: seq<nat>, cycles: seq<Cycle>)
    requires i < |d.reminders| && RowsAreOfClosed(d.reminders, cycles)
    ensures var d' := R.WithAlert(d, i, due).0;
            RowsAreOfClosed(d'.reminders, cycles) && d' == d.(reminders := d'.reminders)
  {
  }

  lemma {:induction false} GenerateKeepsRows(d: R.Desk, customer: nat, cycles: seq<Cycle>)
    requires RowsAreOfClosed(d.reminders, cycles) && CurrentAreClosed(d, cycles)
    ensures var d' := R.Generate(d, customer).0;
            RowsAreOfClosed(d'.reminders, cycles) && d' == d.(reminders := d'.reminders)
  {
    if customer in d.cycles && DueStage(d.schedule, d.day).Some? {
      var stage := DueStage(d.schedule, d.day).value;
      var slot := R.Slot(customer, d.cycles[customer], stage.day, R.KindOf(stage.kind));
      var found := R.Find(d.reminders, slot);
      if found.Some? {
        AlertKeepsRows(d, found.value, if R.Retryable(d.reminders[found.value]) then [found.value] else [], cycles);
      } else {
        var (d1, i) := R.CreateStage(d, slot);
        AlertKeepsRows(d1, i, [i], cycles);
      }
    }
  }

  /** The engine changes only its own rows and its log, and who can be reached. */
  ghost predicate OnlyEngines(d: R.Desk, d': R.Desk) {
    d'.owed == d.owed && d'.cycles == d.cycles && d'.day == d.day
  }

  lemma {:induction false} EngineKeepsRows(d: R.Desk, a: R.Action, cycles: seq<Cycle>)
    requires !Informs(a) && RowsAreOfClosed(d.reminders, cycles) && CurrentAreClosed(d, cycles)
    ensures RowsAreOfClosed(R.Next(d, a).reminders, cycles) && OnlyEngines(d, R.Next(d, a))
  {
    match a
    case Process(c, oracle) =>
      GenerateKeepsRows(d, c, cycles);
      DispatchAllKeepsRows(R.Generate(d, c).0, R.Generate(d, c).1, oracle, cycles);
    case Redispatch(i, accepted) => DispatchKeepsRows(d, i, accepted, false, cycles);
    case _ =>
  }

  lemma {:induction false} EngineKeepsTied(b: Books, d: R.Desk, d': R.Desk)
    requires Tied(b, d) && OnlyEngines(d, d') && RowsAreOfClosed(d'.reminders, b.cycles)
    ensures Tied(b, d')
  {
    forall c: nat ensures R.Owed(d', c) == Outstanding(b.ledger, Some(c), None) {
      assert R.Owed(d, c) == Outstanding(b.ledger, Some(c), None);
    }
  }

  // ---- every play --------------------------------------------------------------

  ghost predicate OfficeOk(o: Office) {
    Inv(o.books) && Tied(o.books, o.desk)
  }

  lemma {:induction false} StepKeepsTied(o: Office, e: OfficeEvent)
    requires OfficeOk(o)
    ensures OfficeOk(Step(o, e))
  {
    match e
    case Business(cmd) =>
      ApplyKeeps(o.books, cmd);
      CommandKeepsTied(o.books, o.desk, cmd, Apply(o.books, cmd).books);
    case Engine(a) =>
      if !Informs(a) {
        BilledAreClosed(o.books, o.desk);
        OneAction(o.desk, a);
        EngineKeepsRows(o.desk, a, o.books.cycles);
        EngineKeepsTied(o.books, o.desk, R.Next(o.desk, a));
      }
  }

  lemma {:induction false} EmptyIsTied(b: Books, d: R.Desk)
    requires b.ledger == [] && b.statements == [] && d.owed == map[] && d.cycles == map[] && d.reminders == []
    requires d.day == b.today.day
    ensures Tied(b, d)
  {
  }

  lemma {:induction false} OpenIsTied(today: Date, startDay: StartDay, schedule: seq<Stage>, o: Office)
    requires o == Open(today, startDay, schedule)
    ensures OfficeOk(o)
  {
    EmptyBooksHold(o.books);
    EmptyIsTied(o.books, o.desk);
  }

  /** Over every interleaving of business and rounds the engine's balances are the ledger's,
      its current cycles are those of the newest statements, and its day is today's. */
  lemma {:induction false} PlaysStayTied(
      today: Date, startDay: StartDay, schedule: seq<Stage>, events: seq<OfficeEvent>)
    ensures OfficeOk(Play(today, startDay, schedule, events))
  {
    if events == [] {
      OpenIsTied(today, startDay, schedule, Open(today, startDay, schedule));
    } else {
      PlaysStayTied(today, startDay, schedule, events[..|events| - 1]);
      StepKeepsTied(Play(today, startDay, schedule, events[..|events| - 1]), events[|events| - 1]);
    }
  }

  lemma {:induction false} PlaysBalance(
      today: Date, startDay: StartDay, schedule: seq<Stage>, events: seq<OfficeEvent>, customer: Option<nat>)
    ensures Balanced(Play(today, startDay, schedule, events).books, customer)
  {
    if events != [] {
      var o, e := Play(today, startDay, schedule, events[..|events| - 1]), events[|events| - 1];
      PlaysBalance(today, startDay, schedule, events[..|events| - 1], customer);
      if e.Business? {
        ApplyBalances(o.books, e.cmd, customer);
      }
    }
  }

  lemma {:induction false} PlaysAreSafe(today: Date, startDay: StartDay, schedule: seq<Stage>, events: seq<OfficeEvent>)
    ensures var d := Play(today, startDay, schedule, events).desk; Safety.Safe(d.reminders, d.log)
  {
    OfficesAreRuns(today, startDay, schedule, events);
    Safety.RunIsSafe(schedule, today.day, Actions(today, startDay, schedule, events));
  }

  ghost predicate AllInform(actions: seq<R.Action>) {
    forall i :: 0 <= i < |actions| ==> Informs(actions[i])
  }

  lemma {:induction false} OweNoticesInform(es: seq<Entry>, n: nat)
    requires n <= |es|
    ensures AllInform(OweNotices(es, n))
    decreases |es|
  {
    if n < |es| {
      OweNoticesInform(es[..|es| - 1], n);
    }
  }

  lemma {:induction false} CycleNoticesInform(ss: seq<Statement>, n: nat)
    requires n <= |ss|
    ensures AllInform(CycleNotices(ss, n))
    decreases |ss|
  {
    if n < |ss| {
      CycleNoticesInform(ss[..|ss| - 1], n);
    }
  }

  lemma {:induction false} NoticesSendNothing(d: R.Desk, notices: seq<R.Action>)
    requires AllInform(notices)
    ensures After(d, notices).log == d.log
  {
    if notices != [] {
      var last: nat := |notices| - 1;
      assert Informs(notices[last]);
      NoticesSendNothing(d, notices[..last]);
    }
  }

  lemma {:induction false} BusinessSendsNothing(b: Books, b': Books, d: R.Desk)
    ensures After(d, Notices(b, b')).log == d.log
  {
    if |b.ledger| <= |b'.ledger| {
      OweNoticesInform(b'.ledger, |b.ledger|);
    }
    if |b.statements| <= |b'.statements| {
      CycleNoticesInform(b'.statements, |b.statements|);
    }
    NoticesSendNothing(d, Notices(b, b'));
  }

  /** What one event adds to the log carries the ledger's balances. */
  lemma {:induction false} StepCarries(o: Office, e: OfficeEvent)
    ensures o.desk.log <= Step(o, e).desk.log
    ensures Step(o, e).desk.log != o.desk.log ==>
              e.Engine? && Step(o, e).books == o.books && Safety.CarriesBalances(o.desk, Step(o, e).desk)
  {
    match e
    case Business(cmd) => BusinessSendsNothing(o.books, Apply(o.books, cmd).books, o.desk);
    case Engine(a) =>
      if !Informs(a) {
        OneAction(o.desk, a);
        Safety.NextCarries(o.desk, a);
      }
  }

  /** The delivery at position `k` was sent from this office, and carried what its books said
      the customer owed: by the ledger, and so by the documents. */
  ghost predicate SentFrom(sent: Office, now: R.Desk, k: nat) {
    |sent.desk.log| <= k < |now.log| && now.log[k].reminder < |now.reminders|
    && var customer := now.reminders[now.log[k].reminder].slot.customer;
       now.log[k].amount == Outstanding(sent.books.ledger, Some(customer), None)
       && now.log[k].amount
          == ActiveCharges(sent.books.records, Some(customer)) - LivePayments(sent.books.payments, Some(customer))
  }

  lemma {:induction false} StillSentFrom(sent: Office, was: R.Desk, now: R.Desk, k: nat)
    requires SentFrom(sent, was, k) && k < |now.log| && now.log[k] == was.log[k] && |was.reminders| <= |now.reminders|
    requires now.reminders[now.log[k].reminder].slot == was.reminders[was.log[k].reminder].slot
    ensures SentFrom(sent, now, k)
  {
  }

  /** Over every interleaving, every delivery in the log carried what the customer owed in
      the books at the moment it was sent. */
  lemma {:induction false} DeliveriesCarryTheBooks(
      today: Date, startDay: StartDay, schedule: seq<Stage>, events: seq<OfficeEvent>, k: nat) returns (n: nat)
    requires k < |Play(today, startDay, schedule, events).desk.log|
    ensures n < |events| && events[n].Engine?
    ensures SentFrom(Play(today, startDay, schedule, events[..n]), Play(today, startDay, schedule, events).desk, k)
  {
    var m: nat := |events| - 1;
    var o, e := Play(today, startDay, schedule, events[..m]), events[m];
    PlaysStayTied(today, startDay, schedule, events[..m]);
    StepCarries(o, e);
    if |o.desk.log| <= k {
      n := m;
      DeliveredNow(today, startDay, schedule, events[..m], o, Step(o, e).desk, k);
    } else {
      n := DeliveriesCarryTheBooks(today, startDay, schedule, events[..m], k);
      assert events[..m][..n] == events[..n];
      RowsStand(today, startDay, schedule, events, m, k);
      StillSentFrom(Play(today, startDay, schedule, events[..n]), o.desk,
                    Play(today, startDay, schedule, events).desk, k);
    }
  }

  lemma {:induction false} DeliveredNow(
      today: Date, startDay: StartDay, schedule: seq<Stage>, events: seq<OfficeEvent>, o: Office, d: R.Desk, k: nat)
    requires o == Play(today, startDay, schedule, events) && Tied(o.books, o.desk)
    requires Safety.CarriesBalances(o.desk, d) && |o.desk.log| <= k < |d.log|
    ensures d.log[k].reminder < |d.reminders|
    ensures var customer := d.reminders[d.log[k].reminder].slot.customer;
            d.log[k].amount == Outstanding(o.books.ledger, Some(customer), None)
            && d.log[k].amount
               == ActiveCharges(o.books.records, Some(customer)) - LivePayments(o.books.payments, Some(customer))
  {
    var customer := d.reminders[d.log[k].reminder].slot.customer;
    assert R.Owed(o.desk, customer) == Outstanding(o.books.ledger, Some(customer), None);
    PlaysBalance(today, startDay, schedule, events, Some(customer));
  }

  /** Over every interleaving the engine does beside the books what it does by itself, and
      leaves the books alone; what is owed in a dispatch is what the ledger says. */
  lemma {:induction false} EngineActs(
      today: Date, startDay: StartDay, schedule: seq<Stage>, events: seq<OfficeEvent>, a: R.Action, o: Office)
    requires IsSchedule(schedule) && !Informs(a) && o == Play(today, startDay, schedule, events)
    ensures Step(o, Engine(a)).books == o.books && Effects.Acts(o.desk, a, Step(o, Engine(a)).desk)
    ensures forall c: nat :: (if c in o.desk.owed then o.desk.owed[c] else 0)
                             == Outstanding(o.books.ledger, Some(c), None)
  {
    OfficesAreRuns(today, startDay, schedule, events);
    Effects.RowsFollowTheSchedule(schedule, today.day, Actions(today, startDay, schedule, events));
    OneAction(o.desk, a);
    Effects.ActsExactly(o.desk, a);
    PlaysStayTied(today, startDay, schedule, events);
    forall c: nat ensures R.Owed(o.desk, c) == Outstanding(o.books.ledger, Some(c), None) {
      assert OwesLike(o.books.ledger, o.desk);
    }
  }

  lemma {:induction false} AfterAbsorbs(d: R.Desk, actions: seq<R.Action>)
    requires Safety.Safe(d.reminders, d.log)
    ensures var d' := After(d, actions); Safety.Safe(d'.reminders, d'.log) && Safety.Absorbing(d, d')
  {
    if actions != [] {
      var before := After(d, actions[..|actions| - 1]);
      AfterAbsorbs(d, actions[..|actions| - 1]);
      Safety.NextKeeps(before, actions[|actions| - 1]);
      Safety.AbsorbingChains(d, before, After(d, actions));
    }
  }

  /** A delivery logged earlier still cites the same customer's row. */
  lemma {:induction false} RowsStand(
      today: Date, startDay: StartDay, schedule: seq<Stage>, events: seq<OfficeEvent>, m: nat, k: nat)
    requires |events| == m + 1 && k < |Play(today, startDay, schedule, events[..m]).desk.log|
    ensures var was := Play(today, startDay, schedule, events[..m]).desk;
            var now := Play(today, startDay, schedule, events).desk;
            k < |now.log| && now.log[k] == was.log[k] && was.log[k].reminder < |was.reminders| <= |now.reminders|
            && now.reminders[now.log[k].reminder].slot == was.reminders[was.log[k].reminder].slot
  {
    var o := Play(today, startDay, schedule, events[..m]);
    PlaysAreSafe(today, startDay, schedule, events[..m]);
    AfterAbsorbs(o.desk, StepActions(o, events[m]));
    assert Safety.DeliveryOk(o.desk.reminders, o.desk.log[k]);
  }

  // ---- the newest statement is the one with the highest version -----------------

  ghost predicate VersionsAscend(ss: seq<Statement>) {
    forall i, j :: 0 <= i < j < |ss| ==> ss[i].version < ss[j].version
  }

  lemma {:induction false} CommandKeepsAscent(b: Books, cmd: Command, ss: seq<Statement>)
    requires VersionsOk(b) && VersionsAscend(b.statements) && ss == Apply(b, cmd).books.statements
    ensures VersionsAscend(ss)
  {
    if IsPosting(cmd) {
      F.PostingKeepsStatements(b, cmd);
    } else if cmd.CloseCycleCmd? {
      F.ClosingAddsStatements(b, cmd.cycle);
      AddedAscend(b, ss);
    }
  }

  lemma {:induction false} AddedAscend(b: Books, ss: seq<Statement>)
    requires VersionsOk(b) && VersionsAscend(b.statements) && F.StatementStep(b, ss)
    ensures VersionsAscend(ss)
  {
    forall i | 0 <= i < |b.statements| ensures ss[i] == b.statements[i] {
      assert ss[..|b.statements|][i] == b.statements[i];
    }
  }

  lemma {:induction false} PlaysAscend(today: Date, startDay: StartDay, schedule: seq<Stage>, events: seq<OfficeEvent>)
    ensures VersionsAscend(Play(today, startDay, schedule, events).books.statements)
  {
    if events != [] {
      var before, e := events[..|events| - 1], events[|events| - 1];
      var b := Play(today, startDay, schedule, before).books;
      PlaysAscend(today, startDay, schedule, before);
      assert VersionsOk(b) by { PlaysStayTied(today, startDay, schedule, before); }
      if e.Business? {
        CommandKeepsAscent(b, e.cmd, Apply(b, e.cmd).books.statements);
      }
    }
  }

  /** The engine's current cycle of a customer is that of the statement with the customer's
      highest version, which is how the engine looks it up. */
  lemma {:induction false} CurrentCycleIsTheNewestStatements(
      today: Date, startDay: StartDay, schedule: seq<Stage>, events: seq<OfficeEvent>, customer: nat, i: nat)
    requires var ss := Play(today, startDay, schedule, events).books.statements; i < |ss| && ss[i].customer == customer
    ensures var o := Play(today, startDay, schedule, events);
            customer in o.desk.cycles
            && ((forall j :: 0 <= j < |o.books.statements| && o.books.statements[j].customer == customer ==>
                   o.books.statements[j].version <= o.books.statements[i].version)
                ==> o.desk.cycles[customer] == o.books.statements[i].cycle)
  {
    var o := Play(today, startDay, schedule, events);
    PlaysStayTied(today, startDay, schedule, events);
    PlaysAscend(today, startDay, schedule, events);
    var s := LatestStatement(o.books.statements, customer).value;
    if s != i {
      assert o.books.statements[i].version < o.books.statements[s].version;
    }
  }
}
