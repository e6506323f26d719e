/** What one customer's turn in a round and one dispatch do, in the terms of the schedule, of
    the rows and of what is owed; and what every row of every run is for. */
module RemindersEffects {
  import opened Outcomes
  import opened Schedule
  import opened Reminders

  // ---- rows --------------------------------------------------------------------

  /** The message that a stage sends to the customer. */
  ghost predicate Sends(stage: StageKind, kind: MessageKind) {
    match stage
    case StatementStage => kind == Bill
    case ReminderStage => kind == Nudge
    case FinalStage => kind == Final
  }

  ghost predicate IsRow(reminders: seq<Reminder>, i: nat, slot: Slot) {
    i < |reminders| && reminders[i].slot == slot
  }

  ghost predicate HasRow(reminders: seq<Reminder>, slot: Slot) {
    exists i :: IsRow(reminders, i, slot)
  }

  /** Waiting, or failed with one of its three attempts left. */
  ghost predicate MayRun(r: Reminder) {
    r.state == Pending || (r.state == Failed && r.attempts < 3)
  }

  /** The same rows and, after them, one for the slot: pending, with what is owed now. */
  ghost predicate AddsRow(d: Desk, d': Desk, slot: Slot) {
    |d'.reminders| == |d.reminders| + 1 && d'.reminders[..|d.reminders|] == d.reminders
    && d'.reminders[|d.reminders|]
       == Reminder(slot, if slot.customer in d.owed then d.owed[slot.customer] else 0, Pending, 0)
    && d' == d.(reminders := d'.reminders)
  }

  // ---- one customer's turn -----------------------------------------------------

  /** What runs for the row of the stage that is due: itself, if it may; and beside a FINAL
      one that is not cancelled the owner's alert, created when it is missing. */
  ghost predicate Brings(d: Desk, i: nat, own: seq<nat>, d': Desk, due: seq<nat>)
    requires i < |d.reminders|
  {
    var r := d.reminders[i];
    var alert := Slot(r.slot.customer, r.slot.cycle, r.slot.day, OwnerAlert);
    if r.slot.kind != Final || r.state == Cancelled then d' == d && due == own
    else if HasRow(d.reminders, alert) then
      d' == d && exists j: nat :: IsRow(d.reminders, j, alert)
                                  && due == if MayRun(d.reminders[j]) then own + [j] else own
    else AddsRow(d, d', alert) && due == own + [|d.reminders|]
  }

  /** A message for a later or the same day of the cycle has reached the customer. */
  ghost predicate SentSince(reminders: seq<Reminder>, customer: nat, cycle: nat, day: int) {
    exists i :: 0 <= i < |reminders| && reminders[i].slot.customer == customer && reminders[i].slot.cycle == cycle
                && reminders[i].slot.kind != OwnerAlert && reminders[i].state == Sent && day <= reminders[i].slot.day
  }

  /** The due stage's turn: an existing row runs if it may. A new one is created unless the
      customer has been sent as late a stage already or, for anything but the bill, owes
      nothing. */
  ghost predicate TakesTurn(d: Desk, slot: Slot, d': Desk, due: seq<nat>) {
    if HasRow(d.reminders, slot) then
      exists i: nat :: IsRow(d.reminders, i, slot)
                       && Brings(d, i, if MayRun(d.reminders[i]) then [i] else [], d', due)
    else if SentSince(d.reminders, slot.customer, slot.cycle, slot.day)
            || (slot.kind != Bill && (slot.customer !in d.owed || d.owed[slot.customer] <= 0))
    then d' == d && due == []
    else exists d1 :: AddsRow(d, d1, slot) && Brings(d1, |d.reminders|, [|d.reminders|], d', due)
  }

  ghost predicate Turn(d: Desk, customer: nat, d': Desk, due: seq<nat>) {
    if customer !in d.cycles || forall s :: s in d.schedule ==> d.day < s.day then d' == d && due == []
    else
      exists s, kind :: IsDue(d.schedule, d.day, s) && Sends(s.kind, kind)
                        && TakesTurn(d, Slot(customer, d.cycles[customer], s.day, kind), d', due)
  }

  lemma {:induction false} FoundIsRow(reminders: seq<Reminder>, slot: Slot)
    ensures Find(reminders, slot).Some? <==> HasRow(reminders, slot)
    ensures Find(reminders, slot).Some? ==> IsRow(reminders, Find(reminders, slot).value, slot)
  {
    var found := Find(reminders, slot);
    if found.Some? {
      assert IsRow(reminders, found.value, slot);
    }
  }

  lemma {:induction false} MissingIsAdded(d: Desk, slot: Slot)
    requires !HasRow(d.reminders, slot)
    ensures CreateStage(d, slot).1 == |d.reminders| && AddsRow(d, CreateStage(d, slot).0, slot)
  {
    FoundIsRow(d.reminders, slot);
  }

  lemma {:induction false} AlertIsBrought(d: Desk, i: nat, own: seq<nat>)
    requires i < |d.reminders|
    ensures Brings(d, i, own, WithAlert(d, i, own).0, WithAlert(d, i, own).1)
  {
    var r := d.reminders[i];
    var alert := Slot(r.slot.customer, r.slot.cycle, r.slot.day, OwnerAlert);
    FoundIsRow(d.reminders, alert);
    if !HasRow(d.reminders, alert) {
      MissingIsAdded(d, alert);
    }
  }

  lemma {:induction false} HighestIsSince(reminders: seq<Reminder>, customer: nat, cycle: nat, day: int)
    requires 0 < day
    ensures day <= HighestSent(reminders, customer, cycle) <==> SentSince(reminders, customer, cycle, day)
  {
  }

  lemma {:induction false} TurnIsTaken(d: Desk, customer: nat, s: Stage, slot: Slot, d': Desk, due: seq<nat>)
    requires customer in d.cycles && DueStage(d.schedule, d.day) == Some(s) && 0 < s.day
    requires slot == Slot(customer, d.cycles[customer], s.day, KindOf(s.kind)) && Generate(d, customer) == (d', due)
    ensures TakesTurn(d, slot, d', due)
  {
    FoundIsRow(d.reminders, slot);
    HighestIsSince(d.reminders, customer, slot.cycle, s.day);
    if HasRow(d.reminders, slot) {
      var i := Find(d.reminders, slot).value;
      AlertIsBrought(d, i, if Retryable(d.reminders[i]) then [i] else []);
    } else {
      MissingIsAdded(d, slot);
      AlertIsBrought(CreateStage(d, slot).0, |d.reminders|, [|d.reminders|]);
    }
  }

  /** A customer's turn does what the due stage, the rows and the balance call for. */
  lemma {:induction false} GeneratesExactly(d: Desk, customer: nat, d': Desk, due: seq<nat>)
    requires IsSchedule(d.schedule) && Generate(d, customer) == (d', due)
    ensures Turn(d, customer, d', due)
  {
    var stage := DueStage(d.schedule, d.day);
    if customer in d.cycles && stage.Some? {
      var s, slot := stage.value, Slot(customer, d.cycles[customer], stage.value.day, KindOf(stage.value.kind));
      assert 0 < s.day;
      TurnIsTaken(d, customer, s, slot, d', due);
      assert Sends(s.kind, KindOf(s.kind));
    }
  }

  // ---- one dispatch ------------------------------------------------------------

  /** A row that is settled or out of attempts is left alone. A debt that is gone cancels it,
      which is no attempt. Without a destination the attempt fails; with one the provider is
      handed what is owed now, and its answer decides. */
  ghost predicate Dispatched(d: Desk, i: nat, accepted: bool, byRunner: bool, d': Desk) {
    if |d.reminders| <= i then d' == d
    else
      var r := d.reminders[i];
      var now := if r.slot.customer in d.owed then d.owed[r.slot.customer] else 0;
      if r.state == Sent || r.state == Cancelled || 3 <= r.attempts then d' == d
      else
        |d'.reminders| == |d.reminders|
        && (forall j :: 0 <= j < |d.reminders| && j != i ==> d'.reminders[j] == d.reminders[j])
        && d' == d.(reminders := d'.reminders, log := d'.log)
        && (if r.slot.kind != Bill && now <= 0 then
              d'.reminders[i] == r.(state := Cancelled) && d'.log == d.log
            else if r.slot.kind == OwnerAlert && !d.ownerReachable then
              d'.reminders[i] == r.(state := Failed, attempts := r.attempts + 1) && d'.log == d.log
            else if r.slot.kind != OwnerAlert && r.slot.customer !in d.reachable then
              d'.reminders[i] == r.(state := Failed, attempts := r.attempts + 1) && d'.log == d.log
            else
              d'.reminders[i] == r.(state := if accepted then Sent else Failed, attempts := r.attempts + 1)
              && d'.log == d.log + [Delivery(i, now, accepted, byRunner)])
  }

  lemma {:induction false} DispatchesExactly(d: Desk, i: nat, accepted: bool, byRunner: bool)
    ensures Dispatched(d, i, accepted, byRunner, Dispatch(d, i, accepted, byRunner))
  {
  }

  /** The due rows, dispatched in order, each with its own answer of the provider. */
  ghost predicate DispatchedAll(d: Desk, due: seq<nat>, oracle: seq<bool>, d': Desk)
    decreases |due|
  {
    if due == [] then d' == d
    else
      var last := |due| - 1;
      exists m :: DispatchedAll(d, due[..last], oracle, m)
                  && Dispatched(m, due[last], last < |oracle| && oracle[last], true, d')
  }

  lemma {:induction false} AllAreDispatched(d: Desk, due: seq<nat>, oracle: seq<bool>)
    ensures DispatchedAll(d, due, oracle, DispatchAll(d, due, oracle))
  {
    if due != [] {
      var last := |due| - 1;
      AllAreDispatched(d, due[..last], oracle);
      DispatchesExactly(DispatchAll(d, due[..last], oracle), due[last], Accepts(oracle, last), true);
    }
  }

  /** The whole unit of work: the turn, and then its rows. */
  lemma {:induction false} ProcessesExactly(d: Desk, customer: nat, oracle: seq<bool>)
    requires IsSchedule(d.schedule)
    ensures exists m, due :: Turn(d, customer, m, due)
                             && DispatchedAll(m, due, oracle, ProcessCustomer(d, customer, oracle))
  {
    var (m, due) := Generate(d, customer);
    GeneratesExactly(d, customer, m, due);
    AllAreDispatched(m, due, oracle);
  }

  // ---- one action --------------------------------------------------------------

  /** What each action changes, and nothing else. */
  ghost predicate Acts(d: Desk, a: Action, d': Desk) {
    match a
    case Owe(c, amount) =>
      d' == d.(owed := d'.owed) && c in d'.owed && d'.owed[c] == amount
      && forall x :: x != c ==> (x in d'.owed <==> x in d.owed) && (x in d.owed ==> d'.owed[x] == d.owed[x])
    case NewCycle(c, cycle) =>
      if exists i :: 0 <= i < |d.reminders| && d.reminders[i].slot.customer == c && d.reminders[i].slot.cycle == cycle
      then d' == d
      else
        d' == d.(cycles := d'.cycles) && c in d'.cycles && d'.cycles[c] == cycle
        && forall x :: x != c ==> (x in d'.cycles <==> x in d.cycles) && (x in d.cycles ==> d'.cycles[x] == d.cycles[x])
    case SetDay(day) => d' == d.(day := d'.day) && d'.day == day
    case Reach(c, yes) =>
      d' == d.(reachable := d'.reachable) && (c in d'.reachable <==> yes)
      && forall x :: x != c ==> (x in d'.reachable <==> x in d.reachable)
    case ReachOwner(yes) => d' == d.(ownerReachable := d'.ownerReachable) && d'.ownerReachable == yes
    case Process(c, oracle) => exists m, due :: Turn(d, c, m, due) && DispatchedAll(m, due, oracle, d')
    case Redispatch(i, accepted) => Dispatched(d, i, accepted, false, d')
    case Crash(_, _) => d' == d
    case CrashRedispatch(_, _) => d' == d
  }

  lemma {:induction false} ActsExactly(d: Desk, a: Action)
    requires IsSchedule(d.schedule)
    ensures Acts(d, a, Next(d, a))
  {
    match a
    case Process(c, oracle) => ProcessesExactly(d, c, oracle);
    case Redispatch(i, accepted) => DispatchesExactly(d, i, accepted, false);
    case _ =>
  }

  /** What an action has done when it comes to commit, whether it then dies or not. */
  lemma {:induction false} AttemptsExactly(d: Desk, a: Action)
    requires IsSchedule(d.schedule)
    ensures match a
            case Crash(c, oracle) =>
              exists m, due :: Turn(d, c, m, due) && DispatchedAll(m, due, oracle, Attempted(d, a))
            case CrashRedispatch(i, accepted) => Dispatched(d, i, accepted, false, Attempted(d, a))
            case _ => Acts(d, a, Attempted(d, a))
  {
    match a
    case Crash(c, oracle) => ProcessesExactly(d, c, oracle);
    case CrashRedispatch(i, accepted) => DispatchesExactly(d, i, accepted, false);
    case _ => ActsExactly(d, a);
  }

  // ---- every row of every run --------------------------------------------------

  /** The row is some stage's: it has its day and its message, or it is the owner's alert
      beside a FINAL one. */
  ghost predicate IsOfSchedule(schedule: seq<Stage>, slot: Slot) {
    exists s :: s in schedule && s.day == slot.day
                && (Sends(s.kind, slot.kind) || (s.kind == FinalStage && slot.kind == OwnerAlert))
  }

  ghost predicate RowsOfSchedule(d: Desk) {
    forall i :: 0 <= i < |d.reminders| ==> IsOfSchedule(d.schedule, d.reminders[i].slot)
  }

  lemma {:induction false} AddedRowsOfSchedule(d: Desk, d': Desk, slot: Slot)
    requires RowsOfSchedule(d) && AddsRow(d, d', slot) && IsOfSchedule(d.schedule, slot)
    ensures RowsOfSchedule(d')
  {
    forall i | 0 <= i < |d'.reminders| ensures IsOfSchedule(d'.schedule, d'.reminders[i].slot) {
      if i < |d.reminders| {
        assert d'.reminders[i] == d'.reminders[..|d.reminders|][i];
      }
    }
  }

  lemma {:induction false} AlertOfSchedule(schedule: seq<Stage>, slot: Slot, alert: Slot)
    requires IsOfSchedule(schedule, slot) && slot.kind == Final && alert == slot.(kind := OwnerAlert)
    ensures IsOfSchedule(schedule, alert)
  {
  }

  lemma {:induction false} BroughtRowsOfSchedule(d: Desk, i: nat, own: seq<nat>, d': Desk, due: seq<nat>)
    requires i < |d.reminders| && RowsOfSchedule(d) && Brings(d, i, own, d', due)
    ensures RowsOfSchedule(d') && d'.schedule == d.schedule
  {
    var r := d.reminders[i];
    var alert := Slot(r.slot.customer, r.slot.cycle, r.slot.day, OwnerAlert);
    if r.slot.kind == Final && r.state != Cancelled && !HasRow(d.reminders, alert) {
      AlertOfSchedule(d.schedule, r.slot, alert);
      AddedRowsOfSchedule(d, d', alert);
    }
  }

  lemma {:induction false} TurnKeepsRows(d: Desk, slot: Slot, d': Desk, due: seq<nat>)
    requires RowsOfSchedule(d) && TakesTurn(d, slot, d', due) && IsOfSchedule(d.schedule, slot)
    ensures RowsOfSchedule(d') && d'.schedule == d.schedule
  {
    if HasRow(d.reminders, slot) {
      var i: nat :| IsRow(d.reminders, i, slot)
        && Brings(d, i, if MayRun(d.reminders[i]) then [i] else [], d', due);
      BroughtRowsOfSchedule(d, i, if MayRun(d.reminders[i]) then [i] else [], d', due);
    } else if d' != d {
      var d1 :| AddsRow(d, d1, slot) && Brings(d1, |d.reminders|, [|d.reminders|], d', due);
      AddedRowsOfSchedule(d, d1, slot);
      BroughtRowsOfSchedule(d1, |d.reminders|, [|d.reminders|], d', due);
    }
  }

  lemma {:induction false} GeneratedRowsOfSchedule(d: Desk, customer: nat, d': Desk, due: seq<nat>)
    requires IsSchedule(d.schedule) && RowsOfSchedule(d) && Turn(d, customer, d', due)
    ensures RowsOfSchedule(d') && d'.schedule == d.schedule
  {
    if customer in d.cycles && exists s :: s in d.schedule && s.day <= d.day {
      var s, kind :| IsDue(d.schedule, d.day, s) && Sends(s.kind, kind)
        && TakesTurn(d, Slot(customer, d.cycles[customer], s.day, kind), d', due);
      assert IsOfSchedule(d.schedule, Slot(customer, d.cycles[customer], s.day, kind));
      TurnKeepsRows(d, Slot(customer, d.cycles[customer], s.day, kind), d', due);
    }
  }

  lemma {:induction false} DispatchKeepsRows(d: Desk, i: nat, accepted: bool, byRunner: bool, d': Desk)
    requires RowsOfSchedule(d) && Dispatched(d, i, accepted, byRunner, d')
    ensures RowsOfSchedule(d') && d'.schedule == d.schedule
  {
    forall j | 0 <= j < |d'.reminders| ensures IsOfSchedule(d'.schedule, d'.reminders[j].slot) {
      assert d'.reminders[j].slot == d.reminders[j].slot;
    }
  }

  lemma {:induction false} DispatchAllKeepsRows(d: Desk, due: seq<nat>, oracle: seq<bool>)
    requires RowsOfSchedule(d)
    ensures RowsOfSchedule(DispatchAll(d, due, oracle)) && DispatchAll(d, due, oracle).schedule == d.schedule
  {
    if due != [] {
      var last := |due| - 1;
      var m := DispatchAll(d, due[..last], oracle);
      DispatchAllKeepsRows(d, due[..last], oracle);
      DispatchesExactly(m, due[last], Accepts(oracle, last), true);
      DispatchKeepsRows(m, due[last], Accepts(oracle, last), true, DispatchAll(d, due, oracle));
    }
  }

  lemma {:induction false} ProcessKeepsRows(d: Desk, customer: nat, oracle: seq<bool>)
    requires IsSchedule(d.schedule) && RowsOfSchedule(d)
    ensures var d' := ProcessCustomer(d, customer, oracle); RowsOfSchedule(d') && d'.schedule == d.schedule
  {
    var (m, due) := Generate(d, customer);
    GeneratesExactly(d, customer, m, due);
    GeneratedRowsOfSchedule(d, customer, m, due);
    DispatchAllKeepsRows(m, due, oracle);
  }

  lemma {:induction false} NextKeepsRows(d: Desk, a: Action)
    requires IsSchedule(d.schedule) && RowsOfSchedule(d)
    ensures RowsOfSchedule(Next(d, a)) && Next(d, a).schedule == d.schedule
  {
    match a
    case Process(c, oracle) => ProcessKeepsRows(d, c, oracle);
    case Redispatch(i, accepted) =>
      DispatchesExactly(d, i, accepted, false);
      DispatchKeepsRows(d, i, accepted, false, Dispatch(d, i, accepted, false));
    case _ =>
  }

  /** Over every run each row is for a stage of the tenant's schedule and carries its
      message: a statement stage the bill, a reminder stage the reminder, a final stage the
      final notice or the owner's alert. */
  lemma {:induction false} RowsFollowTheSchedule(schedule: seq<Stage>, day: int, actions: seq<Action>)
    requires IsSchedule(schedule)
    ensures RowsOfSchedule(Run(schedule, day, actions)) && Run(schedule, day, actions).schedule == schedule
  {
    if actions != [] {
      RowsFollowTheSchedule(schedule, day, actions[..|actions| - 1]);
      NextKeepsRows(Run(schedule, day, actions[..|actions| - 1]), actions[|actions| - 1]);
    }
  }
}
