/** What the provider sees. A crash between the provider's acceptance and the commit
    forgets the SENT mark but not the message, so a message can go out again; how often is
    counted from the actions of a run. */
module RemindersDelivery {
  import opened Outcomes
  import opened Schedule
  import opened Reminders
  import opened RemindersSafety
  import opened RemindersCatchUp

  /** The slots of the messages accepted in the log from position `n` on. */
  function AcceptedSlots(reminders: seq<Reminder>, log: seq<Delivery>, n: nat): seq<Slot>
    requires n <= |log|
    decreases |log|
  {
    if |log| == n then []
    else
      var last := log[|log| - 1];
      AcceptedSlots(reminders, log[..|log| - 1], n)
      + if last.accepted && last.reminder < |reminders| then [reminders[last.reminder].slot] else []
  }

  /** What the provider accepts between two states. */
  function Accepted(d: Desk, d': Desk): seq<Slot> {
    if |d.log| <= |d'.log| then AcceptedSlots(d'.reminders, d'.log, |d.log|) else []
  }

  /** What the provider accepts during an action, whether or not it commits. */
  function Sends(d: Desk, a: Action): seq<Slot> {
    Accepted(d, Attempted(d, a))
  }

  /** Everything the provider accepts over a run. */
  function Wire(schedule: seq<Stage>, day: int, actions: seq<Action>): seq<Slot> {
    if actions == [] then []
    else
      var rest := actions[..|actions| - 1];
      Wire(schedule, day, rest) + Sends(Run(schedule, day, rest), actions[|actions| - 1])
  }

  function CountSlot(slots: seq<Slot>, slot: Slot): nat {
    if slots == [] then 0
    else CountSlot(slots[..|slots| - 1], slot) + if slots[|slots| - 1] == slot then 1 else 0
  }

  predicate IsSent(reminders: seq<Reminder>, slot: Slot) {
    exists i :: 0 <= i < |reminders| && reminders[i].slot == slot && reminders[i].state == Sent
  }

  /** The action dies when it has just sent the slot's message: the row was not SENT and
      would have been. */
  predicate LosesMark(d: Desk, a: Action, slot: Slot) {
    Dies(a) && !IsSent(d.reminders, slot) && IsSent(Attempted(d, a).reminders, slot)
  }

  /** How many actions of a run lose the slot's SENT mark. */
  function LostMarks(schedule: seq<Stage>, day: int, actions: seq<Action>, slot: Slot): nat {
    if actions == [] then 0
    else
      var rest := actions[..|actions| - 1];
      LostMarks(schedule, day, rest, slot)
      + if LosesMark(Run(schedule, day, rest), actions[|actions| - 1], slot) then 1 else 0
  }

  /** How many actions of a run crash a round at the customer, or a re-dispatch of the row. */
  function Crashes(actions: seq<Action>, customer: nat, row: nat): nat {
    if actions == [] then 0
    else
      var a := actions[|actions| - 1];
      Crashes(actions[..|actions| - 1], customer, row)
      + if (a.Crash? && a.customer == customer) || (a.CrashRedispatch? && a.reminder == row) then 1 else 0
  }

  function One(b: bool): nat {
    if b then 1 else 0
  }

  // ---- one action --------------------------------------------------------------

  lemma {:induction false} CountJoins(a: seq<Slot>, b: seq<Slot>, slot: Slot)
    ensures CountSlot(a + b, slot) == CountSlot(a, slot) + CountSlot(b, slot)
  {
    if b == [] {
      assert a + b == a;
    } else {
      var last: nat := |b| - 1;
      CountJoins(a, b[..last], slot);
      assert (a + b)[..|a| + last] == a + b[..last];
    }
  }

  /** What is accepted up to a state and from it on, when no row moves. */
  lemma {:induction false} AcceptedChains(a: Desk, b: Desk, c: Desk)
    requires |a.log| <= |b.log| && b.log <= c.log && NewCitesRows(a, b)
    requires |b.reminders| <= |c.reminders| && forall i :: 0 <= i < |b.reminders| ==>
               c.reminders[i].slot == b.reminders[i].slot
    ensures Accepted(a, c) == Accepted(a, b) + Accepted(b, c)
  {
    AcceptedFrom(b.reminders, c.reminders, b.log, c.log, |a.log|);
  }

  /** Every delivery since cites a row. */
  ghost predicate NewCitesRows(d: Desk, d': Desk) {
    forall k :: |d.log| <= k < |d'.log| ==> d'.log[k].reminder < |d'.reminders|
  }

  lemma {:induction false} AcceptedFrom(
      reminders: seq<Reminder>, reminders': seq<Reminder>, log: seq<Delivery>, log': seq<Delivery>, n: nat)
    requires n <= |log| && log <= log' && forall k :: n <= k < |log| ==> log[k].reminder < |reminders|
    requires |reminders| <= |reminders'| && forall i :: 0 <= i < |reminders| ==> reminders'[i].slot == reminders[i].slot
    ensures AcceptedSlots(reminders', log', n)
            == AcceptedSlots(reminders, log, n) + AcceptedSlots(reminders', log', |log|)
    decreases |log'|
  {
    if |log| < |log'| {
      var last: nat := |log'| - 1;
      AcceptedFrom(reminders, reminders', log, log'[..last], n);
    } else {
      assert log' == log;
      OlderSlotsStand(reminders, reminders', log, n);
    }
  }

  lemma {:induction false} OlderSlotsStand(
      reminders: seq<Reminder>, reminders': seq<Reminder>, log: seq<Delivery>, n: nat)
    requires n <= |log| && forall k :: n <= k < |log| ==> log[k].reminder < |reminders|
    requires |reminders| <= |reminders'| && forall i :: 0 <= i < |reminders| ==> reminders'[i].slot == reminders[i].slot
    ensures AcceptedSlots(reminders', log, n) == AcceptedSlots(reminders, log, n)
    decreases |log|
  {
    if n < |log| {
      OlderSlotsStand(reminders, reminders', log[..|log| - 1], n);
    }
  }

  lemma {:induction false} DispatchTouches(d: Desk, i: nat, accepted: bool, byRunner: bool)
    requires i < |d.reminders|
    ensures var d' := Dispatch(d, i, accepted, byRunner);
            |d'.reminders| == |d.reminders| && d'.reminders == d.reminders[i := d'.reminders[i]]
            && d'.reminders[i].slot == d.reminders[i].slot
  {
  }

  // ---- what marks and messages come to -----------------------------------------

  ghost predicate SlotsStand(rows: seq<Reminder>, rows': seq<Reminder>) {
    |rows| <= |rows'| && forall i :: 0 <= i < |rows| ==> rows'[i].slot == rows[i].slot
  }

  /** Rows keep their slots and stay distinct, the log grows, and a slot's message is accepted
      exactly when its row becomes SENT. */
  ghost predicate MarksWhatItSends(d: Desk, d': Desk, slot: Slot) {
    SlotsDistinct(d'.reminders) && SlotsStand(d.reminders, d'.reminders) && d.log <= d'.log && NewCitesRows(d, d')
    && CountSlot(Accepted(d, d'), slot) + One(IsSent(d.reminders, slot)) == One(IsSent(d'.reminders, slot))
  }

  lemma {:induction false} MarksChain(a: Desk, b: Desk, c: Desk, slot: Slot)
    requires MarksWhatItSends(a, b, slot) && MarksWhatItSends(b, c, slot)
    ensures MarksWhatItSends(a, c, slot)
  {
    AcceptedChains(a, b, c);
    CountJoins(Accepted(a, b), Accepted(b, c), slot);
    forall k | |a.log| <= k < |c.log| ensures c.log[k].reminder < |c.reminders| {
      if k < |b.log| {
        assert c.log[k] == b.log[k];
      }
    }
  }

  lemma {:induction false} NothingSent(d: Desk, d': Desk, slot: Slot)
    requires SlotsDistinct(d'.reminders) && SlotsStand(d.reminders, d'.reminders) && d'.log == d.log
    requires IsSent(d.reminders, slot) <==> IsSent(d'.reminders, slot)
    ensures MarksWhatItSends(d, d', slot)
  {
  }

  /** Whether a slot is SENT is its row's state. */
  lemma {:induction false} SentIsTheRowsState(rows: seq<Reminder>, i: nat, slot: Slot)
    requires SlotsDistinct(rows) && i < |rows| && rows[i].slot == slot
    ensures IsSent(rows, slot) <==> rows[i].state == Sent
  {
    if j :| 0 <= j < |rows| && rows[j].slot == slot && rows[j].state == Sent {
      assert j == i;
    }
  }

  /** Another slot's row changes. */
  lemma {:induction false} OtherRowChanges(rows: seq<Reminder>, i: nat, r: Reminder, slot: Slot)
    requires i < |rows| && r.slot == rows[i].slot && r.slot != slot
    ensures IsSent(rows[i := r], slot) <==> IsSent(rows, slot)
  {
    var rows' := rows[i := r];
    if j :| 0 <= j < |rows| && rows[j].slot == slot && rows[j].state == Sent {
      assert rows'[j] == rows[j];
    }
    if j :| 0 <= j < |rows'| && rows'[j].slot == slot && rows'[j].state == Sent {
      assert rows'[j] == rows[j];
    }
  }

  lemma {:induction false} CreateMarks(d: Desk, created: Slot, slot: Slot)
    requires SlotsDistinct(d.reminders)
    ensures MarksWhatItSends(d, CreateStage(d, created).0, slot)
  {
    var d' := CreateStage(d, created).0;
    if IsSent(d.reminders, slot) {
      var i :| 0 <= i < |d.reminders| && d.reminders[i].slot == slot && d.reminders[i].state == Sent;
      assert d'.reminders[i] == d.reminders[i];
    }
    NothingSent(d, d', slot);
  }

  lemma {:induction false} WithAlertMarks(d: Desk, i: nat, due: seq<nat>, slot: Slot)
    requires i < |d.reminders| && SlotsDistinct(d.reminders)
    ensures MarksWhatItSends(d, WithAlert(d, i, due).0, slot)
  {
    CreateMarks(d, d.reminders[i].slot.(kind := OwnerAlert), slot);
    NothingSent(d, d, slot);
  }

  lemma {:induction false} GenerateMarks(d: Desk, customer: nat, slot: Slot)
    requires SlotsDistinct(d.reminders)
    ensures MarksWhatItSends(d, Generate(d, customer).0, slot)
  {
    NothingSent(d, d, slot);
    if customer in d.cycles && DueStage(d.schedule, d.day).Some? {
      var stage := DueStage(d.schedule, d.day).value;
      var due := Slot(customer, d.cycles[customer], stage.day, KindOf(stage.kind));
      var found := Find(d.reminders, due);
      if found.Some? {
        WithAlertMarks(d, found.value, if Retryable(d.reminders[found.value]) then [found.value] else [], slot);
      } else {
        CreateMarks(d, due, slot);
        var (d1, i) := CreateStage(d, due);
        WithAlertMarks(d1, i, [i], slot);
        MarksChain(d, d1, WithAlert(d1, i, [i]).0, slot);
      }
    }
  }

  /** The row would be delivered now. */
  predicate Deliverable(d: Desk, i: nat)
    requires i < |d.reminders|
  {
    Attemptable(d.reminders[i])
    && (ChasesDebt(d.reminders[i].slot.kind) ==> 0 < Owed(d, d.reminders[i].slot.customer))
    && HasDestination(d, d.reminders[i].slot)
  }

  /** A dispatch hands the provider one message when the row is deliverable, and none
      otherwise; and a row it does not deliver does not become SENT. */
  lemma {:induction false} DispatchAccepts(d: Desk, i: nat, accepted: bool, byRunner: bool)
    requires i < |d.reminders|
    ensures var d' := Dispatch(d, i, accepted, byRunner);
            Accepted(d, d') == (if Deliverable(d, i) && accepted then [d.reminders[i].slot] else [])
            && d'.log == d.log + (if Deliverable(d, i)
                                  then [Delivery(i, Owed(d, d.reminders[i].slot.customer), accepted, byRunner)] else [])
            && (Deliverable(d, i) ==> d'.reminders[i].state == if accepted then Sent else Failed)
            && (Deliverable(d, i) ==> d'.reminders[i].attempts == d.reminders[i].attempts + 1)
            && (!Deliverable(d, i) ==> (d'.reminders[i].state == Sent <==> d.reminders[i].state == Sent))
  {
    var d' := Dispatch(d, i, accepted, byRunner);
    if Deliverable(d, i) {
      var e := Delivery(i, Owed(d, d.reminders[i].slot.customer), accepted, byRunner);
      assert d'.log == d.log + [e] && d'.log[..|d.log|] == d.log;
      assert AcceptedSlots(d'.reminders, d.log, |d.log|) == [];
      assert [] + [d.reminders[i].slot] == [d.reminders[i].slot];
    }
  }

  lemma {:induction false} CountOfOne(a: Slot, slot: Slot)
    ensures CountSlot([a], slot) == One(a == slot)
  {
    assert [a][..0] == [];
  }

  lemma {:induction false} DispatchMarks(d: Desk, i: nat, accepted: bool, byRunner: bool, slot: Slot)
    requires SlotsDistinct(d.reminders)
    ensures MarksWhatItSends(d, Dispatch(d, i, accepted, byRunner), slot)
  {
    var d' := Dispatch(d, i, accepted, byRunner);
    if i < |d.reminders| {
      DispatchAccepts(d, i, accepted, byRunner);
      DispatchTouches(d, i, accepted, byRunner);
      CountOfOne(d.reminders[i].slot, slot);
      if d.reminders[i].slot == slot {
        SentIsTheRowsState(d.reminders, i, slot);
        SentIsTheRowsState(d'.reminders, i, slot);
      } else {
        OtherRowChanges(d.reminders, i, d'.reminders[i], slot);
      }
    } else {
      NothingSent(d, d, slot);
    }
  }

  lemma {:induction false} DispatchAllMarks(d: Desk, due: seq<nat>, oracle: seq<bool>, slot: Slot)
    requires SlotsDistinct(d.reminders)
    ensures MarksWhatItSends(d, DispatchAll(d, due, oracle), slot)
  {
    if due == [] {
      NothingSent(d, d, slot);
    } else {
      var last: nat := |due| - 1;
      var before := DispatchAll(d, due[..last], oracle);
      DispatchAllMarks(d, due[..last], oracle, slot);
      DispatchMarks(before, due[last], Accepts(oracle, last), true, slot);
      MarksChain(d, before, DispatchAll(d, due, oracle), slot);
    }
  }

  lemma {:induction false} ProcessMarks(d: Desk, customer: nat, oracle: seq<bool>, slot: Slot)
    requires SlotsDistinct(d.reminders)
    ensures MarksWhatItSends(d, ProcessCustomer(d, customer, oracle), slot)
  {
    var (generated, due) := Generate(d, customer);
    GenerateMarks(d, customer, slot);
    DispatchAllMarks(generated, due, oracle, slot);
    MarksChain(d, generated, DispatchAll(generated, due, oracle), slot);
  }

  lemma {:induction false} AttemptMarks(d: Desk, a: Action, slot: Slot)
    requires SlotsDistinct(d.reminders)
    ensures MarksWhatItSends(d, Attempted(d, a), slot)
  {
    match a
    case Crash(c, oracle) => ProcessMarks(d, c, oracle, slot);
    case CrashRedispatch(i, accepted) => DispatchMarks(d, i, accepted, false, slot);
    case Process(c, oracle) => ProcessMarks(d, c, oracle, slot);
    case Redispatch(i, accepted) => DispatchMarks(d, i, accepted, false, slot);
    case _ => NothingSent(d, Attempted(d, a), slot);
  }

  /** An action sends a slot's message at most once: when it marks the row SENT, or dies
      before it can. */
  lemma {:induction false} SendsOnce(d: Desk, a: Action, slot: Slot)
    requires SlotsDistinct(d.reminders)
    ensures CountSlot(Sends(d, a), slot) <= 1
    ensures CountSlot(Sends(d, a), slot) + One(IsSent(d.reminders, slot))
            == One(IsSent(Next(d, a).reminders, slot)) + One(LosesMark(d, a, slot))
  {
    AttemptMarks(d, a, slot);
  }

  // ---- every run ---------------------------------------------------------------

  /** Over every run the provider accepts a slot's message once if its row ends up SENT, and
      once more for every action that dies right after sending it; so more than once exactly
      when two such actions happened, or one and the row is SENT all the same. */
  lemma {:induction false} OnlyACrashRepeats(schedule: seq<Stage>, day: int, actions: seq<Action>, slot: Slot)
    ensures var sent := One(IsSent(Run(schedule, day, actions).reminders, slot));
            var lost := LostMarks(schedule, day, actions, slot);
            CountSlot(Wire(schedule, day, actions), slot) == sent + lost
            && (1 < CountSlot(Wire(schedule, day, actions), slot) <==> 1 < lost || (lost == 1 && sent == 1))
  {
    if actions != [] {
      var rest, a := actions[..|actions| - 1], actions[|actions| - 1];
      OnlyACrashRepeats(schedule, day, rest, slot);
      RunIsSafe(schedule, day, rest);
      SendsOnce(Run(schedule, day, rest), a, slot);
      CountJoins(Wire(schedule, day, rest), Sends(Run(schedule, day, rest), a), slot);
    }
  }

  // ---- at most once per crash --------------------------------------------------

  /** Only rows of one customer are created or changed. */
  ghost predicate OnlyTouches(d: Desk, d': Desk, customer: nat) {
    |d.reminders| <= |d'.reminders|
    && forall i :: 0 <= i < |d'.reminders| && d'.reminders[i].slot.customer != customer ==>
         i < |d.reminders| && d'.reminders[i] == d.reminders[i]
  }

  ghost predicate DueFor(d: Desk, due: seq<nat>, customer: nat) {
    forall k :: 0 <= k < |due| ==> due[k] < |d.reminders| && d.reminders[due[k]].slot.customer == customer
  }

  lemma {:induction false} AlertTouches(d: Desk, i: nat, due: seq<nat>, customer: nat)
    requires i < |d.reminders| && d.reminders[i].slot.customer == customer && DueFor(d, due, customer)
    ensures OnlyTouches(d, WithAlert(d, i, due).0, customer)
    ensures DueFor(WithAlert(d, i, due).0, WithAlert(d, i, due).1, customer)
  {
  }

  lemma {:induction false} GenerateTouches(d: Desk, customer: nat)
    ensures OnlyTouches(d, Generate(d, customer).0, customer)
    ensures DueFor(Generate(d, customer).0, Generate(d, customer).1, customer)
  {
    if customer in d.cycles && DueStage(d.schedule, d.day).Some? {
      var stage := DueStage(d.schedule, d.day).value;
      var slot := Slot(customer, d.cycles[customer], stage.day, KindOf(stage.kind));
      var found := Find(d.reminders, slot);
      if found.Some? {
        AlertTouches(d, found.value, if Retryable(d.reminders[found.value]) then [found.value] else [], customer);
      } else {
        var (d1, i) := CreateStage(d, slot);
        AlertTouches(d1, i, [i], customer);
      }
    }
  }

  lemma {:induction false} DispatchAllTouches(d: Desk, due: seq<nat>, oracle: seq<bool>, customer: nat)
    requires DueFor(d, due, customer)
    ensures OnlyTouches(d, DispatchAll(d, due, oracle), customer)
    ensures |DispatchAll(d, due, oracle).reminders| == |d.reminders|
    ensures forall i :: 0 <= i < |d.reminders| ==> DispatchAll(d, due, oracle).reminders[i].slot == d.reminders[i].slot
  {
    if due != [] {
      var last: nat := |due| - 1;
      DispatchAllTouches(d, due[..last], oracle, customer);
      DispatchTouches(DispatchAll(d, due[..last], oracle), due[last], Accepts(oracle, last), true);
    }
  }

  lemma {:induction false} ProcessTouches(d: Desk, customer: nat, oracle: seq<bool>)
    ensures OnlyTouches(d, ProcessCustomer(d, customer, oracle), customer)
  {
    var (generated, due) := Generate(d, customer);
    GenerateTouches(d, customer);
    DispatchAllTouches(generated, due, oracle, customer);
  }

  /** A mark is lost by a crash of a round at the slot's customer or of a re-dispatch of its
      row. */
  lemma {:induction false} LosersAreCrashes(d: Desk, a: Action, slot: Slot)
    requires LosesMark(d, a, slot)
    ensures match a
            case Crash(c, _) => c == slot.customer
            case CrashRedispatch(i, _) => i < |d.reminders| && d.reminders[i].slot == slot
            case _ => false
  {
    var x := Attempted(d, a);
    var j :| 0 <= j < |x.reminders| && x.reminders[j].slot == slot && x.reminders[j].state == Sent;
    match a
    case Crash(c, oracle) =>
      ProcessTouches(d, c, oracle);
    case CrashRedispatch(i, accepted) =>
      if i < |d.reminders| {
        DispatchTouches(d, i, accepted, false);
      }
  }

  /** Over every run the provider accepts the message of a row at most once more often than
      the row's customer's rounds and its own re-dispatches crashed. */
  lemma {:induction false} AtMostOncePerCrash(schedule: seq<Stage>, day: int, actions: seq<Action>, row: nat)
    requires row < |Run(schedule, day, actions).reminders|
    ensures var slot := Run(schedule, day, actions).reminders[row].slot;
            CountSlot(Wire(schedule, day, actions), slot) <= 1 + Crashes(actions, slot.customer, row)
  {
    var slot := Run(schedule, day, actions).reminders[row].slot;
    OnlyACrashRepeats(schedule, day, actions, slot);
    MarksLostToCrashes(schedule, day, actions, |actions|, row);
    assert actions[..|actions|] == actions;
  }

  lemma {:induction false} MarksLostToCrashes(schedule: seq<Stage>, day: int, actions: seq<Action>, n: nat, row: nat)
    requires n <= |actions| && row < |Run(schedule, day, actions).reminders|
    ensures var slot := Run(schedule, day, actions).reminders[row].slot;
            LostMarks(schedule, day, actions[..n], slot) <= Crashes(actions[..n], slot.customer, row)
  {
    if 0 < n {
      var m: nat := n - 1;
      var slot, d := Run(schedule, day, actions).reminders[row].slot, Run(schedule, day, actions[..m]);
      MarksLostToCrashes(schedule, day, actions, m, row);
      assert actions[..n][..m] == actions[..m];
      if LosesMark(d, actions[m], slot) {
        LosersAreCrashes(d, actions[m], slot);
        RowStands(schedule, day, actions, m, row, d);
      }
    }
  }

  /** A row found with a slot keeps it, so two rows found with it at two times are one. */
  lemma {:induction false} RowStands(schedule: seq<Stage>, day: int, actions: seq<Action>, m: nat, row: nat, d: Desk)
    requires m <= |actions| && row < |Run(schedule, day, actions).reminders| && d == Run(schedule, day, actions[..m])
    ensures var slot := Run(schedule, day, actions).reminders[row].slot;
            forall i :: 0 <= i < |d.reminders| && d.reminders[i].slot == slot ==> i == row
  {
    RunIsSafe(schedule, day, actions);
    RunAbsorbs(schedule, day, actions, m);
  }

  // ---- a message sent twice ----------------------------------------------------

  /** A round that is resumed as it was sends every message again whose mark was lost. */
  lemma {:induction false} ResumedRoundRepeats(d: Desk, customer: nat, oracle: seq<bool>, slot: Slot)
    requires Safe(d.reminders, d.log) && LosesMark(d, Crash(customer, oracle), slot)
    ensures CountSlot(Sends(d, Crash(customer, oracle)), slot) == 1
    ensures CountSlot(Sends(Next(d, Crash(customer, oracle)), Process(customer, oracle)), slot) == 1
    ensures IsSent(Next(Next(d, Crash(customer, oracle)), Process(customer, oracle)).reminders, slot)
  {
    SendsOnce(d, Crash(customer, oracle), slot);
    SendsOnce(d, Process(customer, oracle), slot);
  }

  /** So does a re-dispatch that is repeated. */
  lemma {:induction false} ResumedRedispatchRepeats(d: Desk, i: nat, slot: Slot)
    requires Safe(d.reminders, d.log) && LosesMark(d, CrashRedispatch(i, true), slot)
    ensures CountSlot(Sends(d, CrashRedispatch(i, true)), slot) == 1
    ensures CountSlot(Sends(Next(d, CrashRedispatch(i, true)), Redispatch(i, true)), slot) == 1
  {
    SendsOnce(d, CrashRedispatch(i, true), slot);
    SendsOnce(d, Redispatch(i, true), slot);
  }

  lemma {:induction false} WireGrows(schedule: seq<Stage>, day: int, actions: seq<Action>, a: Action, d: Desk)
    requires d == Run(schedule, day, actions)
    ensures Wire(schedule, day, actions + [a]) == Wire(schedule, day, actions) + Sends(d, a)
  {
    assert (actions + [a])[..|actions|] == actions;
  }

  /** A run from nothing in which a message goes out twice and one SENT row shows for it. */
  lemma {:induction false} SentTwice() returns (actions: seq<Action>)
    ensures CountSlot(Wire(TwoStages(), 4, actions), Slot(0, 0, 4, Nudge)) == 2
    ensures Run(TwoStages(), 4, actions).reminders == [DayRow(4, Sent, 1)]
  {
    var start := OwingIsReachable();
    NothingSentYet(TwoStages(), 4, start, Slot(0, 0, 4, Nudge));
    actions := CrashAndResume(start, Crash(0, [true]), Process(0, [true]));
  }

  lemma {:induction false} DayFourMarkIsLost(d: Desk, crash: Action, resume: Action, slot: Slot)
    requires d == Owing(4, [], []) && crash == Crash(0, [true]) && resume == Process(0, [true])
             && slot == Slot(0, 0, 4, Nudge)
    ensures LosesMark(d, crash, slot) && Next(d, crash) == d && Next(d, resume).reminders == [DayRow(4, Sent, 1)]
  {
    RoundCreates(4, 4, [], [], true);
    assert Next(d, resume).reminders == [DayRow(4, Sent, 1)];
    assert [DayRow(4, Sent, 1)][0].slot == slot;
  }

  /** Two more actions of a run, the first of which leaves the state as it was. */
  lemma {:induction false} TwoMore(
      schedule: seq<Stage>, day: int, start: seq<Action>, a: Action, b: Action, d: Desk, slot: Slot)
    requires d == Run(schedule, day, start) && Next(d, a) == d
    ensures Run(schedule, day, start + [a] + [b]) == Next(d, b)
    ensures CountSlot(Wire(schedule, day, start + [a] + [b]), slot)
            == CountSlot(Wire(schedule, day, start), slot) + CountSlot(Sends(d, a), slot) + CountSlot(Sends(d, b), slot)
  {
    OneMore(schedule, day, start, a, d);
    OneMore(schedule, day, start + [a], b, d);
    WireGrows(schedule, day, start, a, d);
    WireGrows(schedule, day, start + [a], b, d);
    CountJoins(Wire(schedule, day, start), Sends(d, a), slot);
    CountJoins(Wire(schedule, day, start + [a]), Sends(d, b), slot);
  }

  lemma {:induction false} CrashAndResume(start: seq<Action>, crash: Action, resume: Action)
    returns (actions: seq<Action>)
    requires Run(TwoStages(), 4, start) == Owing(4, [], [])
             && CountSlot(Wire(TwoStages(), 4, start), Slot(0, 0, 4, Nudge)) == 0
    requires crash == Crash(0, [true]) && resume == Process(0, [true])
    ensures CountSlot(Wire(TwoStages(), 4, actions), Slot(0, 0, 4, Nudge)) == 2
    ensures Run(TwoStages(), 4, actions).reminders == [DayRow(4, Sent, 1)]
  {
    var d, slot := Owing(4, [], []), Slot(0, 0, 4, Nudge);
    DayFourMarkIsLost(d, crash, resume, slot);
    RunIsSafe(TwoStages(), 4, start);
    ResumedRoundRepeats(d, 0, [true], slot);
    actions := start + [crash] + [resume];
    TwoMore(TwoStages(), 4, start, crash, resume, d, slot);
  }

  lemma {:induction false} NothingSentYet(schedule: seq<Stage>, day: int, actions: seq<Action>, slot: Slot)
    requires forall k :: 0 <= k < |actions| ==> actions[k].Owe? || actions[k].NewCycle? || actions[k].Reach?
    ensures CountSlot(Wire(schedule, day, actions), slot) == 0
  {
    if actions != [] {
      var rest, a := actions[..|actions| - 1], actions[|actions| - 1];
      NothingSentYet(schedule, day, rest, slot);
      assert Sends(Run(schedule, day, rest), a) == [];
      assert Wire(schedule, day, rest) + [] == Wire(schedule, day, rest);
    }
  }
}
