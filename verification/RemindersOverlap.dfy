/** Dispatches that overlap. A committed row is read without a lock, so several transactions
    may read it, deliver it, and commit or die in any order; a commit writes only the columns
    its own transaction changed. A row that is not committed yet is different: its unique
    index makes a second insert wait, so creating one stays a single step. */
module RemindersOverlap {
  import opened Outcomes
  import opened Schedule
  import opened Reminders
  import opened RemindersSafety
  import opened RemindersDelivery

  datatype Phase =
    | Loaded
    | Tried(now: Reminder, delivery: Option<Delivery>)
    | Over

  /** One transaction at work on one committed row, and the row as it read it. */
  datatype Flight = Flight(row: nat, was: Reminder, phase: Phase)

  datatype Station = Station(desk: Desk, flights: seq<Flight>)

  datatype Move =
    | Act(action: Action)                              // anything the engine does in one step
    | Load(row: nat)                                   // a transaction reads a row
    | Try(flight: nat, accepted: bool, byRunner: bool) // re-check, re-read the balance, deliver
    | Commit(flight: nat)
    | Abort(flight: nat)

  // ---- steps -------------------------------------------------------------------

  /** The desk as the transaction sees it: the row as it was read, all else as committed. */
  function SeenBy(d: Desk, f: Flight): Desk
    requires f.row < |d.reminders|
  {
    WithReminder(d, f.row, f.was)
  }

  function WithPhase(s: Station, k: nat, phase: Phase): Station
    requires k < |s.flights|
  {
    s.(flights := s.flights[k := s.flights[k].(phase := phase)])
  }

  predicate InPhase(s: Station, k: nat, tried: bool) {
    k < |s.flights| && s.flights[k].row < |s.desk.reminders|
    && if tried then s.flights[k].phase.Tried? else s.flights[k].phase.Loaded?
  }

  function DoTry(s: Station, k: nat, accepted: bool, byRunner: bool): Station {
    if InPhase(s, k, false) then
      var f := s.flights[k];
      var seen := SeenBy(s.desk, f);
      var after := Dispatch(seen, f.row, accepted, byRunner);
      WithPhase(s, k, Tried(after.reminders[f.row],
                            if |seen.log| < |after.log| then Some(after.log[|seen.log|]) else None))
    else s
  }

  /** Only what the transaction changed is written over the committed row. */
  function Merged(committed: Reminder, was: Reminder, now: Reminder): Reminder {
    committed.(state := if now.state != was.state then now.state else committed.state,
               attempts := if now.attempts != was.attempts then now.attempts else committed.attempts)
  }

  function DoCommit(s: Station, k: nat): Station {
    if InPhase(s, k, true) then
      var f := s.flights[k];
      var d := WithReminder(s.desk, f.row, Merged(s.desk.reminders[f.row], f.was, f.phase.now));
      WithPhase(s, k, Over)
        .(desk := d.(log := d.log + if f.phase.delivery.Some? then [f.phase.delivery.value] else []))
    else s
  }

  function Next(s: Station, m: Move): Station {
    match m
    case Act(a) => s.(desk := Reminders.Next(s.desk, a))
    case Load(i) =>
      if i < |s.desk.reminders| then s.(flights := s.flights + [Flight(i, s.desk.reminders[i], Loaded)]) else s
    case Try(k, accepted, byRunner) => DoTry(s, k, accepted, byRunner)
    case Commit(k) => DoCommit(s, k)
    case Abort(k) => if k < |s.flights| then WithPhase(s, k, Over) else s
  }

  function Run(schedule: seq<Stage>, day: int, moves: seq<Move>): Station {
    if moves == [] then Station(Start(schedule, day), [])
    else Next(Run(schedule, day, moves[..|moves| - 1]), moves[|moves| - 1])
  }

  // ---- what is counted ---------------------------------------------------------

  /** What the provider accepts during a move, whether or not it is ever committed. */
  function Sends(s: Station, m: Move): seq<Slot> {
    match m
    case Act(a) => RemindersDelivery.Sends(s.desk, a)
    case Try(k, accepted, byRunner) =>
      if InPhase(s, k, false) then
        var seen := SeenBy(s.desk, s.flights[k]);
        Accepted(seen, Dispatch(seen, s.flights[k].row, accepted, byRunner))
      else []
    case _ => []
  }

  function Wire(schedule: seq<Stage>, day: int, moves: seq<Move>): seq<Slot> {
    if moves == [] then []
    else
      var rest := moves[..|moves| - 1];
      Wire(schedule, day, rest) + Sends(Run(schedule, day, rest), moves[|moves| - 1])
  }

  /** The transaction has had the slot's message accepted and has yet to commit or die. */
  predicate IsUndecided(f: Flight, slot: Slot) {
    f.phase.Tried? && f.phase.delivery.Some? && f.phase.delivery.value.accepted && f.was.slot == slot
  }

  function Undecided(flights: seq<Flight>, slot: Slot): nat {
    if flights == [] then 0
    else Undecided(flights[..|flights| - 1], slot) + One(IsUndecided(flights[|flights| - 1], slot))
  }

  /** The move loses an acceptance: an action that dies after sending; a commit onto a row
      that is SENT already, by a transaction that sent it too or that writes another state
      over the mark; the death of a transaction that sent. */
  predicate LosesMark(s: Station, m: Move, slot: Slot) {
    match m
    case Act(a) => RemindersDelivery.LosesMark(s.desk, a, slot)
    case Commit(k) =>
      InPhase(s, k, true) && s.flights[k].was.slot == slot && s.desk.reminders[s.flights[k].row].state == Sent
      && (IsUndecided(s.flights[k], slot) || s.flights[k].phase.now.state != s.flights[k].was.state)
    case Abort(k) => k < |s.flights| && IsUndecided(s.flights[k], slot)
    case _ => false
  }

  function LostMarks(schedule: seq<Stage>, day: int, moves: seq<Move>, slot: Slot): nat {
    if moves == [] then 0
    else
      var rest := moves[..|moves| - 1];
      LostMarks(schedule, day, rest, slot) + One(LosesMark(Run(schedule, day, rest), moves[|moves| - 1], slot))
  }

  // ---- the invariant -----------------------------------------------------------

  /** A transaction's row has the slot it read, and it has sent exactly when it is about to
      mark as SENT a row it did not find so. */
  ghost predicate FlightOk(rows: seq<Reminder>, f: Flight) {
    f.row < |rows| && rows[f.row].slot == f.was.slot
    && (f.phase.Tried? ==>
          (IsUndecided(f, f.was.slot) <==> f.phase.now.state == Sent && f.was.state != Sent)
            && (f.phase.now.state != f.was.state ==> f.was.state != Sent))
  }

  ghost predicate StationOk(s: Station) {
    SlotsDistinct(s.desk.reminders) && forall k :: 0 <= k < |s.flights| ==> FlightOk(s.desk.reminders, s.flights[k])
  }

  lemma {:induction false} UndecidedReplaced(flights: seq<Flight>, k: nat, f: Flight, slot: Slot)
    requires k < |flights|
    ensures Undecided(flights[k := f], slot) + One(IsUndecided(flights[k], slot))
            == Undecided(flights, slot) + One(IsUndecided(f, slot))
  {
    var last: nat := |flights| - 1;
    if k < last {
      UndecidedReplaced(flights[..last], k, f, slot);
      assert flights[k := f][..last] == flights[..last][k := f];
    } else {
      assert flights[k := f][..last] == flights[..last];
    }
  }

  lemma {:induction false} SlotsCarry(rows: seq<Reminder>, rows': seq<Reminder>, flights: seq<Flight>)
    requires SlotsStand(rows, rows') && forall k :: 0 <= k < |flights| ==> FlightOk(rows, flights[k])
    ensures forall k :: 0 <= k < |flights| ==> FlightOk(rows', flights[k])
  {
    forall k | 0 <= k < |flights| ensures FlightOk(rows', flights[k]) {
      assert FlightOk(rows, flights[k]);
    }
  }

  /** The books balance: messages accepted, against the mark and the transactions that have
      yet to decide. */
  ghost predicate Accounted(s: Station, s': Station, sent: seq<Slot>, lost: bool, slot: Slot) {
    CountSlot(sent, slot) + One(IsSent(s.desk.reminders, slot)) + Undecided(s.flights, slot)
    == One(IsSent(s'.desk.reminders, slot)) + Undecided(s'.flights, slot) + One(lost)
  }

  lemma {:induction false} ActAccounts(s: Station, a: Action, slot: Slot)
    requires StationOk(s)
    ensures StationOk(Next(s, Act(a)))
    ensures Accounted(s, Next(s, Act(a)), Sends(s, Act(a)), LosesMark(s, Act(a), slot), slot)
  {
    SendsOnce(s.desk, a, slot);
    AttemptMarks(s.desk, a, slot);
    if !Dies(a) {
      SlotsCarry(s.desk.reminders, Reminders.Next(s.desk, a).reminders, s.flights);
    }
  }

  lemma {:induction false} LoadAccounts(s: Station, i: nat, slot: Slot)
    requires StationOk(s)
    ensures StationOk(Next(s, Load(i)))
    ensures Accounted(s, Next(s, Load(i)), [], false, slot)
  {
    if i < |s.desk.reminders| {
      var s' := Next(s, Load(i));
      assert s'.flights[..|s.flights|] == s.flights;
      forall k | 0 <= k < |s'.flights| ensures FlightOk(s'.desk.reminders, s'.flights[k]) {
        if k < |s.flights| {
          assert FlightOk(s.desk.reminders, s.flights[k]);
        }
      }
    }
  }

  /** What one attempt leaves a transaction with. */
  lemma {:induction false} TriedFlight(
      d: Desk, f: Flight, accepted: bool, byRunner: bool, tried: Flight, sent: seq<Slot>)
    requires FlightOk(d.reminders, f) && f.phase.Loaded?
    requires var seen := SeenBy(d, f);
             var after := Dispatch(seen, f.row, accepted, byRunner);
             sent == Accepted(seen, after)
             && tried == f.(phase := Tried(after.reminders[f.row],
                                           if |seen.log| < |after.log| then Some(after.log[|seen.log|]) else None))
    ensures FlightOk(d.reminders, tried)
    ensures sent == if IsUndecided(tried, f.was.slot) then [f.was.slot] else []
  {
    var seen := SeenBy(d, f);
    DispatchAccepts(seen, f.row, accepted, byRunner);
    assert seen.reminders[f.row] == f.was;
  }

  lemma {:induction false} TryAccounts(s: Station, k: nat, accepted: bool, byRunner: bool, slot: Slot)
    requires StationOk(s)
    ensures StationOk(DoTry(s, k, accepted, byRunner))
    ensures Accounted(s, DoTry(s, k, accepted, byRunner), Sends(s, Try(k, accepted, byRunner)), false, slot)
  {
    if InPhase(s, k, false) {
      var s', f := DoTry(s, k, accepted, byRunner), s.flights[k];
      assert FlightOk(s.desk.reminders, f);
      TriedFlight(s.desk, f, accepted, byRunner, s'.flights[k], Sends(s, Try(k, accepted, byRunner)));
      UndecidedReplaced(s.flights, k, s'.flights[k], slot);
      CountOfOne(f.was.slot, slot);
      forall j | 0 <= j < |s'.flights| ensures FlightOk(s'.desk.reminders, s'.flights[j]) {
        if j != k {
          assert FlightOk(s.desk.reminders, s.flights[j]);
        }
      }
    }
  }

  /** A committed row after the transaction wrote over it. */
  lemma {:induction false} MergedState(rows: seq<Reminder>, f: Flight, r: Reminder)
    requires SlotsDistinct(rows) && FlightOk(rows, f) && f.phase.Tried?
    requires r == Merged(rows[f.row], f.was, f.phase.now)
    ensures SlotsDistinct(rows[f.row := r]) && SlotsStand(rows, rows[f.row := r]) && r.slot == f.was.slot
    ensures r.state == if f.phase.now.state != f.was.state then f.phase.now.state else rows[f.row].state
  {
  }

  lemma {:induction false} CommitMovesTheMark(rows: seq<Reminder>, f: Flight, r: Reminder, slot: Slot, lost: bool)
    requires SlotsDistinct(rows) && FlightOk(rows, f) && f.phase.Tried?
    requires r == Merged(rows[f.row], f.was, f.phase.now)
    requires lost <==> f.was.slot == slot && rows[f.row].state == Sent
                       && (IsUndecided(f, slot) || f.phase.now.state != f.was.state)
    ensures One(IsSent(rows, slot)) + One(IsUndecided(f, slot)) == One(IsSent(rows[f.row := r], slot)) + One(lost)
  {
    MergedState(rows, f, r);
    if f.was.slot == slot {
      SentIsTheRowsState(rows, f.row, slot);
      SentIsTheRowsState(rows[f.row := r], f.row, slot);
    } else {
      OtherRowChanges(rows, f.row, r, slot);
    }
  }

  lemma {:induction false} CommitAccounts(s: Station, k: nat, slot: Slot)
    requires StationOk(s)
    ensures StationOk(DoCommit(s, k))
    ensures Accounted(s, DoCommit(s, k), [], LosesMark(s, Commit(k), slot), slot)
  {
    if InPhase(s, k, true) {
      var s', f := DoCommit(s, k), s.flights[k];
      var r := Merged(s.desk.reminders[f.row], f.was, f.phase.now);
      assert FlightOk(s.desk.reminders, f);
      MergedState(s.desk.reminders, f, r);
      CommitMovesTheMark(s.desk.reminders, f, r, slot, LosesMark(s, Commit(k), slot));
      UndecidedReplaced(s.flights, k, s'.flights[k], slot);
      SlotsCarry(s.desk.reminders, s'.desk.reminders, s.flights);
      FlightEnds(s'.desk.reminders, s.flights, k);
    }
  }

  lemma {:induction false} FlightEnds(rows: seq<Reminder>, flights: seq<Flight>, k: nat)
    requires k < |flights| && forall j :: 0 <= j < |flights| ==> FlightOk(rows, flights[j])
    ensures var flights' := flights[k := flights[k].(phase := Over)];
            forall j :: 0 <= j < |flights'| ==> FlightOk(rows, flights'[j])
  {
  }

  lemma {:induction false} AbortAccounts(s: Station, k: nat, slot: Slot)
    requires StationOk(s)
    ensures StationOk(Next(s, Abort(k)))
    ensures Accounted(s, Next(s, Abort(k)), [], LosesMark(s, Abort(k), slot), slot)
  {
    if k < |s.flights| {
      UndecidedReplaced(s.flights, k, s.flights[k].(phase := Over), slot);
      FlightEnds(s.desk.reminders, s.flights, k);
    }
  }

  lemma {:induction false} MoveAccounts(s: Station, m: Move, slot: Slot)
    requires StationOk(s)
    ensures StationOk(Next(s, m)) && Accounted(s, Next(s, m), Sends(s, m), LosesMark(s, m, slot), slot)
  {
    match m
    case Act(a) => ActAccounts(s, a, slot);
    case Load(i) => LoadAccounts(s, i, slot);
    case Try(k, accepted, byRunner) => TryAccounts(s, k, accepted, byRunner, slot);
    case Commit(k) => CommitAccounts(s, k, slot);
    case Abort(k) => AbortAccounts(s, k, slot);
  }

  // ---- every run ---------------------------------------------------------------

  lemma {:induction false} RunIsOk(schedule: seq<Stage>, day: int, moves: seq<Move>)
    ensures StationOk(Run(schedule, day, moves))
  {
    if moves != [] {
      var s := Run(schedule, day, moves[..|moves| - 1]);
      RunIsOk(schedule, day, moves[..|moves| - 1]);
      MoveAccounts(s, moves[|moves| - 1], Slot(0, 0, 0, Bill));
    }
  }

  /** Over every run, with any number of dispatches of a row overlapping and any of them
      dying: the provider accepts a slot's message once if its row is SENT, once for every
      transaction that has sent it and yet to decide, and once for every acceptance lost. */
  lemma {:induction false} OverlapsCountExactly(schedule: seq<Stage>, day: int, moves: seq<Move>, slot: Slot)
    ensures var s := Run(schedule, day, moves);
            CountSlot(Wire(schedule, day, moves), slot)
            == One(IsSent(s.desk.reminders, slot)) + Undecided(s.flights, slot) + LostMarks(schedule, day, moves, slot)
  {
    if moves != [] {
      var rest, m := moves[..|moves| - 1], moves[|moves| - 1];
      var s := Run(schedule, day, rest);
      OverlapsCountExactly(schedule, day, rest, slot);
      RunIsOk(schedule, day, rest);
      MoveAccounts(s, m, slot);
      CountJoins(Wire(schedule, day, rest), Sends(s, m), slot);
    }
  }

  /** A commit loses an acceptance only when it overlaps another's: the row it read was not
      SENT, and by now another has marked it so. */
  lemma {:induction false} LosingCommitsOverlap(schedule: seq<Stage>, day: int, moves: seq<Move>, k: nat, slot: Slot)
    requires LosesMark(Run(schedule, day, moves), Commit(k), slot)
    ensures var s := Run(schedule, day, moves);
            k < |s.flights| && s.flights[k].row < |s.desk.reminders|
            && s.flights[k].was.state != Sent && s.desk.reminders[s.flights[k].row].state == Sent
  {
    var s := Run(schedule, day, moves);
    RunIsOk(schedule, day, moves);
    assert FlightOk(s.desk.reminders, s.flights[k]);
  }

  // ---- two at once -------------------------------------------------------------

  /** A round and the owner both read a row before either delivers it. */
  function BothLoaded(s: Station, i: nat): Station {
    Next(Next(s, Load(i)), Load(i))
  }

  /** Each delivers what it read; nothing is committed yet. */
  function BothTried(s: Station, i: nat, first: bool, second: bool): Station {
    Next(Next(BothLoaded(s, i), Try(|s.flights|, first, true)), Try(|s.flights| + 1, second, false))
  }

  function BothCommitted(s: Station, i: nat, first: bool, second: bool): Station {
    Next(Next(BothTried(s, i, first, second), Commit(|s.flights|)), Commit(|s.flights| + 1))
  }

  /** What the two hand the provider and it accepts. */
  function SentByBoth(s: Station, i: nat, first: bool, second: bool): seq<Slot> {
    var loaded, one := BothLoaded(s, i), Try(|s.flights|, first, true);
    Sends(loaded, one) + Sends(Next(loaded, one), Try(|s.flights| + 1, second, false))
  }

  /** A transaction that tries a row nobody has changed since it was read. */
  lemma {:induction false} FreshTry(s: Station, k: nat, accepted: bool, byRunner: bool)
    requires InPhase(s, k, false) && s.flights[k].was == s.desk.reminders[s.flights[k].row]
    ensures var f, s' := s.flights[k], DoTry(s, k, accepted, byRunner);
            var after := Dispatch(s.desk, f.row, accepted, byRunner);
            Sends(s, Try(k, accepted, byRunner)) == Accepted(s.desk, after)
            && s'.desk == s.desk && |s'.flights| == |s.flights| && s'.flights[k].phase.Tried?
            && s'.flights[k].phase.now == after.reminders[f.row]
            && s'.flights[k].phase.delivery.Some? == (|s.desk.log| < |after.log|)
            && s'.flights[k] == f.(phase := s'.flights[k].phase)
            && forall j :: 0 <= j < |s.flights| && j != k ==> s'.flights[j] == s.flights[j]
  {
    assert SeenBy(s.desk, s.flights[k]) == s.desk;
  }

  /** One after the other, two dispatches of a row have its message accepted at most once.
      Two that overlap have it accepted once each exactly when the row is deliverable and the
      provider accepts. */
  lemma {:induction false} OverlapRepeatsExactly(s: Station, i: nat, first: bool, second: bool, slot: Slot)
    requires StationOk(s) && i < |s.desk.reminders| && slot == s.desk.reminders[i].slot
    ensures var d := s.desk;
            var one := Dispatch(d, i, first, true);
            CountSlot(Accepted(d, one), slot) + CountSlot(Accepted(one, Dispatch(one, i, second, false)), slot) <= 1
    ensures CountSlot(SentByBoth(s, i, first, second), slot)
            == if Deliverable(s.desk, i) then One(first) + One(second) else 0
  {
    OneAfterTheOther(s.desk, i, first, second, slot);
    BothSend(s, i, first, second);
    DispatchCounts(s.desk, i, first, true, slot);
    DispatchCounts(s.desk, i, second, false, slot);
    CountJoins(Accepted(s.desk, Dispatch(s.desk, i, first, true)),
               Accepted(s.desk, Dispatch(s.desk, i, second, false)), slot);
  }

  /** Each sends what it would if it were alone. */
  lemma {:induction false} BothSend(s: Station, i: nat, first: bool, second: bool)
    requires i < |s.desk.reminders|
    ensures SentByBoth(s, i, first, second)
            == Accepted(s.desk, Dispatch(s.desk, i, first, true))
               + Accepted(s.desk, Dispatch(s.desk, i, second, false))
  {
    var n, loaded := |s.flights|, BothLoaded(s, i);
    FreshTry(loaded, n, first, true);
    FreshTry(Next(loaded, Try(n, first, true)), n + 1, second, false);
  }

  lemma {:induction false} DispatchCounts(d: Desk, i: nat, accepted: bool, byRunner: bool, slot: Slot)
    requires i < |d.reminders| && slot == d.reminders[i].slot
    ensures CountSlot(Accepted(d, Dispatch(d, i, accepted, byRunner)), slot) == One(Deliverable(d, i) && accepted)
  {
    DispatchAccepts(d, i, accepted, byRunner);
    CountOfOne(slot, slot);
  }

  lemma {:induction false} OneAfterTheOther(d: Desk, i: nat, first: bool, second: bool, slot: Slot)
    requires SlotsDistinct(d.reminders)
    ensures var one := Dispatch(d, i, first, true);
            CountSlot(Accepted(d, one), slot) + CountSlot(Accepted(one, Dispatch(one, i, second, false)), slot) <= 1
  {
    var one := Dispatch(d, i, first, true);
    DispatchMarks(d, i, first, true, slot);
    DispatchMarks(one, i, second, false, slot);
  }

  /** A transaction that has delivered its row and ends in the given state. */
  ghost predicate ReadyToCommit(s: Station, k: nat, i: nat, was: Reminder, ends: State) {
    InPhase(s, k, true) && s.flights[k].row == i && s.flights[k].was == was && s.flights[k].phase.now.state == ends
    && s.flights[k].phase.now.attempts == was.attempts + 1 && s.flights[k].phase.delivery.Some?
  }

  lemma {:induction false} BothAreReady(s: Station, i: nat, first: bool, second: bool)
    requires i < |s.desk.reminders| && Deliverable(s.desk, i)
    ensures var tried, was := BothTried(s, i, first, second), s.desk.reminders[i];
            tried.desk == s.desk
            && ReadyToCommit(tried, |s.flights|, i, was, if first then Sent else Failed)
            && ReadyToCommit(tried, |s.flights| + 1, i, was, if second then Sent else Failed)
  {
    var n, loaded := |s.flights|, BothLoaded(s, i);
    FreshTry(loaded, n, first, true);
    FreshTry(Next(loaded, Try(n, first, true)), n + 1, second, false);
    DispatchAccepts(s.desk, i, first, true);
    DispatchAccepts(s.desk, i, second, false);
  }

  lemma {:induction false} CommitWrites(s: Station, k: nat, i: nat, was: Reminder, ends: State)
    requires ReadyToCommit(s, k, i, was, ends)
    ensures var s' := DoCommit(s, k);
            |s'.desk.reminders| == |s.desk.reminders| && |s'.flights| == |s.flights|
            && s'.desk.reminders[i].state == (if ends != was.state then ends else s.desk.reminders[i].state)
            && s'.desk.reminders[i].attempts == was.attempts + 1 && |s'.desk.log| == |s.desk.log| + 1
            && forall j :: 0 <= j < |s.flights| && j != k ==> s'.flights[j] == s.flights[j]
  {
  }

  /** What stands in the row then: SENT if the later one was accepted; otherwise FAILED, and
      the earlier one's mark is gone, unless the row was FAILED when they read it, because then
      the later one has no change of state to write. The log shows two deliveries, the row one
      attempt. */
  lemma {:induction false} LaterCommitDecides(s: Station, i: nat, first: bool, second: bool)
    requires i < |s.desk.reminders| && Deliverable(s.desk, i)
    ensures var s' := BothCommitted(s, i, first, second);
            |s'.desk.reminders| == |s.desk.reminders|
            && s'.desk.reminders[i].attempts == s.desk.reminders[i].attempts + 1
            && |s'.desk.log| == |s.desk.log| + 2
            && s'.desk.reminders[i].state
               == if second || (first && s.desk.reminders[i].state == Failed) then Sent else Failed
  {
    var n, was, tried := |s.flights|, s.desk.reminders[i], BothTried(s, i, first, second);
    BothAreReady(s, i, first, second);
    CommitWrites(tried, n, i, was, if first then Sent else Failed);
    CommitWrites(DoCommit(tried, n), n + 1, i, was, if second then Sent else Failed);
  }
}
