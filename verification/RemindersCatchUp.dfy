/** Catch-up: while a customer's cycle stays current and the day of the month does not
    fall, a round sends at most one customer-facing stage, always the latest due one, and
    never one that was passed over. */
module RemindersCatchUp {
  import opened Outcomes
  import opened Schedule
  import opened Reminders
  import opened RemindersSafety

  /** A customer-facing row of the customer's current cycle. */
  predicate Current(d: Desk, slot: Slot, customer: nat) {
    customer in d.cycles && slot.customer == customer && slot.cycle == d.cycles[customer] && slot.kind != OwnerAlert
  }

  /** Rows come from the schedule. */
  ghost predicate Scheduled(schedule: seq<Stage>, slot: Slot) {
    slot.kind != OwnerAlert ==> exists s :: s in schedule && s.day == slot.day && KindOf(s.kind) == slot.kind
  }

  ghost predicate AllScheduled(d: Desk) {
    IsSchedule(d.schedule) && forall i :: 0 <= i < |d.reminders| ==> Scheduled(d.schedule, d.reminders[i].slot)
  }

  /** No row of the current cycle is ahead of what is due today. */
  ghost predicate NotAhead(d: Desk, slot: Slot, customer: nat) {
    Current(d, slot, customer) ==>
        DueStage(d.schedule, d.day).Some? && slot.day <= DueStage(d.schedule, d.day).value.day
  }

  /** The customer-facing stages the runner has delivered in the current cycle. */
  predicate Delivered(d: Desk, e: Delivery, customer: nat) {
    e.accepted && e.byRunner && e.reminder < |d.reminders| && Current(d, d.reminders[e.reminder].slot, customer)
  }

  ghost predicate DaysRise(d: Desk, customer: nat) {
    forall i, j :: 0 <= i < j < |d.log| && Delivered(d, d.log[i], customer) && Delivered(d, d.log[j], customer) ==>
      d.reminders[d.log[i].reminder].slot.day < d.reminders[d.log[j].reminder].slot.day
  }

  ghost predicate CaughtUp(d: Desk, customer: nat) {
    Safe(d.reminders, d.log) && AllScheduled(d)
    && (forall i :: 0 <= i < |d.reminders| ==> NotAhead(d, d.reminders[i].slot, customer))
    && DaysRise(d, customer)
  }

  // ---- generation --------------------------------------------------------------

  /** The slot a round would use for a customer today. */
  ghost predicate IsDueSlot(d: Desk, slot: Slot, customer: nat) {
    customer in d.cycles && DueStage(d.schedule, d.day).Some?
    && var stage := DueStage(d.schedule, d.day).value;
       slot == Slot(customer, d.cycles[customer], stage.day, KindOf(stage.kind))
  }

  /** What may be due: today's slot, once and first, or an owner alert. */
  ghost predicate DueOk(d: Desk, due: seq<nat>, customer: nat) {
    forall k :: 0 <= k < |due| ==>
      due[k] < |d.reminders|
      && (IsDueSlot(d, d.reminders[due[k]].slot, customer) || d.reminders[due[k]].slot.kind == OwnerAlert)
      && (0 < k ==> d.reminders[due[k]].slot.kind == OwnerAlert)
  }

  /** The same desk with more rows. */
  ghost predicate OnlyRows(d: Desk, d': Desk) {
    d' == d.(reminders := d'.reminders) && d.reminders <= d'.reminders
    && forall i :: |d.reminders| <= i < |d'.reminders| ==> d'.reminders[i].state == Pending
  }

  lemma {:induction false} AlertIsDueOk(d: Desk, i: nat, due: seq<nat>, customer: nat)
    requires i < |d.reminders| && due in {[], [i]} && IsDueSlot(d, d.reminders[i].slot, customer)
    ensures var (d', due') := WithAlert(d, i, due);
            OnlyRows(d, d') && DueOk(d', due', customer)
            && forall j :: |d.reminders| <= j < |d'.reminders| ==> d'.reminders[j].slot.kind == OwnerAlert
  {
  }

  /** A round attempts at most one customer-facing stage, it is the latest due one, and the
      only rows it creates are that one's and its owner alert's. */
  lemma {:induction false} GenerateIsDueOk(d: Desk, customer: nat)
    ensures var (d', due) := Generate(d, customer);
            OnlyRows(d, d') && DueOk(d', due, customer)
            && forall j :: |d.reminders| <= j < |d'.reminders| ==>
                 d'.reminders[j].slot.kind == OwnerAlert || IsDueSlot(d, d'.reminders[j].slot, customer)
  {
    if customer in d.cycles && DueStage(d.schedule, d.day).Some? {
      var stage := DueStage(d.schedule, d.day).value;
      var slot := Slot(customer, d.cycles[customer], stage.day, KindOf(stage.kind));
      var found := Find(d.reminders, slot);
      if found.Some? {
        AlertIsDueOk(d, found.value, if Retryable(d.reminders[found.value]) then [found.value] else [], customer);
      } else {
        var (d1, i) := CreateStage(d, slot);
        AlertIsDueOk(d1, i, [i], customer);
      }
    }
  }

  /** A slot that is due for the round's customer is not ahead for anybody. */
  lemma {:induction false} DueSlotIsNotAhead(d: Desk, slot: Slot, customer: nat, other: nat)
    requires IsDueSlot(d, slot, customer) || slot.kind == OwnerAlert
    ensures NotAhead(d, slot, other)
    ensures Scheduled(d.schedule, slot)
  {
    if slot.kind != OwnerAlert {
      var stage := DueStage(d.schedule, d.day).value;
      assert stage in d.schedule;
    }
  }

  lemma {:induction false} GenerateKeepsCaughtUp(d: Desk, customer: nat, other: nat)
    requires CaughtUp(d, other)
    ensures CaughtUp(Generate(d, customer).0, other)
  {
    var d' := Generate(d, customer).0;
    GenerateKeeps(d, customer);
    GenerateIsDueOk(d, customer);
    forall i | 0 <= i < |d'.reminders|
      ensures NotAhead(d', d'.reminders[i].slot, other) && Scheduled(d'.schedule, d'.reminders[i].slot)
    {
      if i < |d.reminders| {
        assert d'.reminders[i] == d.reminders[i];
        assert NotAhead(d, d.reminders[i].slot, other);
      } else {
        DueSlotIsNotAhead(d, d'.reminders[i].slot, customer, other);
      }
    }
    MoreRowsKeepDaysRise(d, d', other);
  }

  lemma {:induction false} MoreRowsKeepDaysRise(d: Desk, d': Desk, customer: nat)
    requires Safe(d.reminders, d.log) && DaysRise(d, customer) && OnlyRows(d, d')
    ensures DaysRise(d', customer)
  {
    forall k | 0 <= k < |d.log|
      ensures d.log[k].reminder < |d.reminders| && d'.reminders[d.log[k].reminder] == d.reminders[d.log[k].reminder]
    {
      assert DeliveryOk(d.reminders, d.log[k]);
    }
  }

  // ---- dispatch ----------------------------------------------------------------

  /** Two current rows of one day are one row. */
  lemma {:induction false} OneRowPerDay(d: Desk, i: nat, j: nat, customer: nat)
    requires AllScheduled(d) && SlotsDistinct(d.reminders) && i < |d.reminders| && j < |d.reminders|
    requires Current(d, d.reminders[i].slot, customer) && Current(d, d.reminders[j].slot, customer)
    requires d.reminders[i].slot.day == d.reminders[j].slot.day
    ensures i == j
  {
    assert Scheduled(d.schedule, d.reminders[i].slot) && Scheduled(d.schedule, d.reminders[j].slot);
    var s :| s in d.schedule && s.day == d.reminders[i].slot.day && KindOf(s.kind) == d.reminders[i].slot.kind;
    var t :| t in d.schedule && t.day == d.reminders[j].slot.day && KindOf(t.kind) == d.reminders[j].slot.kind;
    DayDeterminesStage(d.schedule, s, t);
  }

  lemma {:induction false} DayDeterminesStage(stages: seq<Stage>, s: Stage, t: Stage)
    requires InDayOrder(stages) && s in stages && t in stages && s.day == t.day
    ensures s == t
  {
    var i :| 0 <= i < |stages| && stages[i] == s;
    var j :| 0 <= j < |stages| && stages[j] == t;
    assert i < j ==> stages[i].day < stages[j].day;
    assert j < i ==> stages[j].day < stages[i].day;
  }

  /** A row the runner is about to deliver lies after every one it delivered before. */
  lemma {:induction false} NextDeliveryIsLater(d: Desk, i: nat, k: nat, customer: nat)
    requires CaughtUp(d, customer) && i < |d.reminders| && Attemptable(d.reminders[i])
    requires IsDueSlot(d, d.reminders[i].slot, customer) && k < |d.log| && Delivered(d, d.log[k], customer)
    ensures d.reminders[d.log[k].reminder].slot.day < d.reminders[i].slot.day
  {
    var j := d.log[k].reminder;
    assert NotAhead(d, d.reminders[j].slot, customer);
    AcceptedIsSent(d.reminders, d.log, k);
    if d.reminders[j].slot.day == d.reminders[i].slot.day {
      OneRowPerDay(d, i, j, customer);
    }
  }

  lemma {:induction false} AcceptedIsSent(reminders: seq<Reminder>, log: seq<Delivery>, k: nat)
    requires Safe(reminders, log) && k < |log| && log[k].accepted
    ensures log[k].reminder < |reminders| && reminders[log[k].reminder].state == Sent
  {
    assert DeliveryOk(reminders, log[k]);
    assert RowOk(reminders, log, log[k].reminder);
    AcceptedIsCounted(log, k);
  }

  lemma {:induction false} AcceptedIsCounted(log: seq<Delivery>, k: nat)
    requires k < |log| && log[k].accepted
    ensures 1 <= AcceptedCount(log, log[k].reminder)
  {
    if k < |log| - 1 {
      AcceptedIsCounted(log[..|log| - 1], k);
    }
  }

  /** The same rows in the same cycles on the same day, in whatever state. */
  ghost predicate SameSlots(d: Desk, d': Desk) {
    d'.day == d.day && d'.schedule == d.schedule && d'.cycles == d.cycles && |d'.reminders| == |d.reminders|
    && forall i :: 0 <= i < |d.reminders| ==> d'.reminders[i].slot == d.reminders[i].slot
  }

  lemma {:induction false} SameSlotsKeep(d: Desk, d': Desk, customer: nat)
    requires SameSlots(d, d') && AllScheduled(d)
    requires forall i :: 0 <= i < |d.reminders| ==> NotAhead(d, d.reminders[i].slot, customer)
    ensures AllScheduled(d') && forall i :: 0 <= i < |d'.reminders| ==> NotAhead(d', d'.reminders[i].slot, customer)
  {
    forall i | 0 <= i < |d'.reminders|
      ensures NotAhead(d', d'.reminders[i].slot, customer) && Scheduled(d'.schedule, d'.reminders[i].slot)
    {
      assert NotAhead(d, d.reminders[i].slot, customer) && Scheduled(d.schedule, d.reminders[i].slot);
    }
  }

  lemma {:induction false} DispatchKeepsSlots(d: Desk, i: nat, accepted: bool, byRunner: bool)
    ensures SameSlots(d, Dispatch(d, i, accepted, byRunner))
  {
  }

  /** At most one more delivery, and if it counts it is later than those before it. */
  lemma {:induction false} DeliveryKeepsRise(d: Desk, d': Desk, customer: nat)
    requires DaysRise(d, customer) && SameSlots(d, d')
    requires d'.log == d.log || (|d'.log| == |d.log| + 1 && d'.log[..|d.log|] == d.log)
    requires d'.log != d.log && Delivered(d', d'.log[|d.log|], customer) ==>
               forall k :: 0 <= k < |d.log| && Delivered(d, d.log[k], customer) ==>
                 d.reminders[d.log[k].reminder].slot.day < d.reminders[d'.log[|d.log|].reminder].slot.day
    ensures DaysRise(d', customer)
  {
    if d'.log != d.log {
      forall k | 0 <= k < |d.log| ensures d'.log[k] == d.log[k] {
        assert d'.log[..|d.log|][k] == d.log[k];
      }
    }
  }

  lemma {:induction false} DispatchKeepsRise(d: Desk, i: nat, accepted: bool, byRunner: bool, customer: nat)
    requires CaughtUp(d, customer)
    requires byRunner && i < |d.reminders| && Current(d, d.reminders[i].slot, customer) ==>
               IsDueSlot(d, d.reminders[i].slot, customer)
    ensures DaysRise(Dispatch(d, i, accepted, byRunner), customer)
  {
    var d' := Dispatch(d, i, accepted, byRunner);
    DispatchKeepsSlots(d, i, accepted, byRunner);
    if d'.log != d.log && Delivered(d', d'.log[|d.log|], customer) {
      forall k | 0 <= k < |d.log| && Delivered(d, d.log[k], customer)
        ensures d.reminders[d.log[k].reminder].slot.day < d.reminders[i].slot.day
      {
        NextDeliveryIsLater(d, i, k, customer);
      }
    }
    DeliveryKeepsRise(d, d', customer);
  }

  lemma {:induction false} DispatchKeepsCaughtUp(d: Desk, i: nat, accepted: bool, byRunner: bool, customer: nat)
    requires CaughtUp(d, customer)
    requires byRunner && i < |d.reminders| && Current(d, d.reminders[i].slot, customer) ==>
               IsDueSlot(d, d.reminders[i].slot, customer)
    ensures CaughtUp(Dispatch(d, i, accepted, byRunner), customer)
  {
    DispatchKeeps(d, i, accepted, byRunner);
    DispatchKeepsSlots(d, i, accepted, byRunner);
    SameSlotsKeep(d, Dispatch(d, i, accepted, byRunner), customer);
    DispatchKeepsRise(d, i, accepted, byRunner, customer);
  }

  lemma {:induction false} DueKeeps(d: Desk, d': Desk, due: seq<nat>, customer: nat)
    requires DueOk(d, due, customer) && SameSlots(d, d')
    ensures DueOk(d', due, customer)
  {
  }

  lemma {:induction false} DispatchAllKeepsSlots(d: Desk, due: seq<nat>, oracle: seq<bool>)
    ensures SameSlots(d, DispatchAll(d, due, oracle))
  {
    if due != [] {
      var last := |due| - 1;
      DispatchAllKeepsSlots(d, due[..last], oracle);
      DispatchKeepsSlots(DispatchAll(d, due[..last], oracle), due[last], Accepts(oracle, last), true);
    }
  }

  /** One more of the runner's deliveries. */
  lemma {:induction false} DueDispatchKeepsCaughtUp(d: Desk, i: nat, accepted: bool, customer: nat, other: nat)
    requires CaughtUp(d, other) && i < |d.reminders|
    requires IsDueSlot(d, d.reminders[i].slot, customer) || d.reminders[i].slot.kind == OwnerAlert
    ensures CaughtUp(Dispatch(d, i, accepted, true), other)
  {
    DispatchKeepsCaughtUp(d, i, accepted, true, other);
  }

  lemma {:induction false} DispatchAllKeepsCaughtUp(
      d: Desk, due: seq<nat>, oracle: seq<bool>, customer: nat, other: nat)
    requires CaughtUp(d, other) && DueOk(d, due, customer)
    ensures CaughtUp(DispatchAll(d, due, oracle), other)
  {
    if due != [] {
      var last := |due| - 1;
      var before := DispatchAll(d, due[..last], oracle);
      assert DueOk(d, due[..last], customer);
      DispatchAllKeepsCaughtUp(d, due[..last], oracle, customer, other);
      DispatchAllKeepsSlots(d, due[..last], oracle);
      DueKeeps(d, before, due, customer);
      DueDispatchKeepsCaughtUp(before, due[last], Accepts(oracle, last), customer, other);
    }
  }

  lemma {:induction false} ProcessKeepsCaughtUp(d: Desk, customer: nat, oracle: seq<bool>, other: nat)
    requires CaughtUp(d, other)
    ensures CaughtUp(ProcessCustomer(d, customer, oracle), other)
  {
    var (generated, due) := Generate(d, customer);
    GenerateKeepsCaughtUp(d, customer, other);
    GenerateIsDueOk(d, customer);
    DispatchAllKeepsCaughtUp(generated, due, oracle, customer, other);
  }

  // ---- runs --------------------------------------------------------------------

  /** The day of the month has not fallen since the customer's latest statement. */
  predicate DayRises(schedule: seq<Stage>, day: int, actions: seq<Action>, customer: nat) {
    if actions == [] then true
    else
      var last, before := actions[|actions| - 1], actions[..|actions| - 1];
      match last
      case NewCycle(c, cycle) =>
        (c == customer && FreshCycle(Run(schedule, day, before).reminders, c, cycle))
          || DayRises(schedule, day, before, customer)
      case SetDay(next) => Run(schedule, day, before).day <= next && DayRises(schedule, day, before, customer)
      case _ => DayRises(schedule, day, before, customer)
  }

  lemma {:induction false} LaterDayKeeps(d: Desk, day: int, customer: nat)
    requires CaughtUp(d, customer) && d.day <= day
    ensures CaughtUp(d.(day := day), customer)
  {
    forall i | 0 <= i < |d.reminders| ensures NotAhead(d.(day := day), d.reminders[i].slot, customer) {
      assert NotAhead(d, d.reminders[i].slot, customer);
      if DueStage(d.schedule, d.day).Some? {
        DueStageRises(d.schedule, d.day, day);
      }
    }
  }

  lemma {:induction false} FreshCycleIsCaughtUp(d: Desk, customer: nat, cycle: nat)
    requires Safe(d.reminders, d.log) && AllScheduled(d) && FreshCycle(d.reminders, customer, cycle)
    ensures CaughtUp(d.(cycles := d.cycles[customer := cycle]), customer)
  {
  }

  lemma {:induction false} OtherCycleKeeps(d: Desk, c: nat, cycle: nat, customer: nat)
    requires CaughtUp(d, customer) && c != customer
    ensures CaughtUp(d.(cycles := d.cycles[c := cycle]), customer)
  {
    forall i | 0 <= i < |d.reminders|
      ensures NotAhead(d.(cycles := d.cycles[c := cycle]), d.reminders[i].slot, customer) {
      assert NotAhead(d, d.reminders[i].slot, customer);
    }
  }

  lemma {:induction false} RowsAreScheduled(schedule: seq<Stage>, day: int, actions: seq<Action>)
    requires IsSchedule(schedule)
    ensures AllScheduled(Run(schedule, day, actions))
  {
    if actions != [] {
      var before, a := Run(schedule, day, actions[..|actions| - 1]), actions[|actions| - 1];
      RowsAreScheduled(schedule, day, actions[..|actions| - 1]);
      NextKeepsScheduled(before, a);
    }
  }

  lemma {:induction false} NextKeepsScheduled(d: Desk, a: Action)
    requires AllScheduled(d)
    ensures AllScheduled(Next(d, a))
  {
    match a
    case Process(c, oracle) =>
      var (generated, due) := Generate(d, c);
      GenerateIsDueOk(d, c);
      forall i | 0 <= i < |generated.reminders| ensures Scheduled(d.schedule, generated.reminders[i].slot) {
        if |d.reminders| <= i {
          DueSlotIsNotAhead(d, generated.reminders[i].slot, c, c);
        } else {
          assert generated.reminders[i] == d.reminders[i];
        }
      }
      DispatchAllKeepsScheduled(generated, due, oracle);
    case Redispatch(i, accepted) => DispatchKeepsScheduled(d, i, accepted, false);
    case _ =>
  }

  lemma {:induction false} DispatchKeepsScheduled(d: Desk, i: nat, accepted: bool, byRunner: bool)
    requires AllScheduled(d)
    ensures AllScheduled(Dispatch(d, i, accepted, byRunner))
  {
  }

  lemma {:induction false} DispatchAllKeepsScheduled(d: Desk, due: seq<nat>, oracle: seq<bool>)
    requires AllScheduled(d)
    ensures AllScheduled(DispatchAll(d, due, oracle))
  {
    if due != [] {
      var last := |due| - 1;
      DispatchAllKeepsScheduled(d, due[..last], oracle);
      DispatchKeepsScheduled(DispatchAll(d, due[..last], oracle), due[last], Accepts(oracle, last), true);
    }
  }

  lemma {:induction false} NextKeepsCaughtUp(d: Desk, a: Action, customer: nat)
    requires CaughtUp(d, customer)
    requires a.SetDay? ==> d.day <= a.day
    requires a.NewCycle? ==> a.customer != customer || FreshCycle(d.reminders, a.customer, a.cycle)
    ensures CaughtUp(Next(d, a), customer)
  {
    match a
    case Process(c, oracle) => ProcessKeepsCaughtUp(d, c, oracle, customer);
    case Redispatch(i, accepted) => DispatchKeepsCaughtUp(d, i, accepted, false, customer);
    case SetDay(day) => LaterDayKeeps(d, day, customer);
    case NewCycle(c, cycle) =>
      if FreshCycle(d.reminders, c, cycle) {
        if c == customer { FreshCycleIsCaughtUp(d, c, cycle); } else { OtherCycleKeeps(d, c, cycle, customer); }
      }
    case _ => CaughtUpIgnores(d, Next(d, a), customer);
  }

  lemma {:induction false} CaughtUpIgnores(d: Desk, d': Desk, customer: nat)
    requires CaughtUp(d, customer)
    requires d' == d.(owed := d'.owed, reachable := d'.reachable, ownerReachable := d'.ownerReachable)
    ensures CaughtUp(d', customer)
  {
    forall i | 0 <= i < |d.reminders| ensures NotAhead(d', d.reminders[i].slot, customer) {
      assert NotAhead(d, d.reminders[i].slot, customer);
    }
  }

  /** Over every run of rounds, payments, re-dispatches and crashes in which the day of
      the month does not fall while the cycle is current: nothing is ahead of schedule and
      the runner's deliveries have strictly increasing days. */
  lemma {:induction false} RunCatchesUp(schedule: seq<Stage>, day: int, actions: seq<Action>, customer: nat)
    requires IsSchedule(schedule) && DayRises(schedule, day, actions, customer)
    ensures CaughtUp(Run(schedule, day, actions), customer)
  {
    if actions != [] {
      var rest, a := actions[..|actions| - 1], actions[|actions| - 1];
      RunIsSafe(schedule, day, rest);
      RowsAreScheduled(schedule, day, rest);
      if a.NewCycle? && a.customer == customer && FreshCycle(Run(schedule, day, rest).reminders, a.customer, a.cycle) {
        FreshCycleIsCaughtUp(Run(schedule, day, rest), customer, a.cycle);
      } else {
        RunCatchesUp(schedule, day, rest, customer);
        if !(a.NewCycle? && a.customer == customer) {
          NextKeepsCaughtUp(Run(schedule, day, rest), a, customer);
        }
      }
    }
  }

  // ---- one round ---------------------------------------------------------------

  ghost predicate Attempts(d: Desk, customer: nat, slot: Slot) {
    exists i :: i in Generate(d, customer).1 && i < |Generate(d, customer).0.reminders|
                && Generate(d, customer).0.reminders[i].slot == slot
  }

  /** A round attempts today's stage exactly when its row exists and may be retried, or does
      not exist yet, lies beyond every stage sent, and is a bill or something is owed. */
  lemma {:induction false} AttemptedExactly(d: Desk, customer: nat, slot: Slot)
    requires IsDueSlot(d, slot, customer)
    ensures Attempts(d, customer, slot)
            <==> match Find(d.reminders, slot)
                 case Some(i) => Retryable(d.reminders[i])
                 case None => HighestSent(d.reminders, customer, slot.cycle) < slot.day
                              && (ChasesDebt(slot.kind) ==> 0 < Owed(d, customer))
  {
    var found := Find(d.reminders, slot);
    if found.Some? {
      FoundRowIsDue(d, found.value, customer, slot);
    } else {
      var (d1, i) := CreateStage(d, slot);
      if HighestSent(d.reminders, customer, slot.cycle) < slot.day
         && (ChasesDebt(slot.kind) ==> 0 < Owed(d, customer)) {
        assert Generate(d, customer) == WithAlert(d1, i, [i]);
        assert i in WithAlert(d1, i, [i]).1 && WithAlert(d1, i, [i]).0.reminders[i] == d1.reminders[i];
      }
    }
  }

  lemma {:induction false} FoundRowIsDue(d: Desk, f: nat, customer: nat, slot: Slot)
    requires IsDueSlot(d, slot, customer) && Find(d.reminders, slot) == Some(f)
    ensures Attempts(d, customer, slot) <==> Retryable(d.reminders[f])
  {
    var (generated, due) := Generate(d, customer);
    var start := if Retryable(d.reminders[f]) then [f] else [];
    AlertIsDueOk(d, f, start, customer);
    if Retryable(d.reminders[f]) {
      assert due[0] == f && generated.reminders[f] == d.reminders[f];
    }
  }

  /** Without the condition on the day catch-up fails, and exactly there: a round attempts a
      stage at or below one already sent precisely when that stage's row already exists and
      may be retried, because the lookup of an existing row does not consult the highest
      stage sent. */
  lemma {:induction false} ReplayNeedsAnExistingRow(d: Desk, customer: nat, slot: Slot)
    requires IsDueSlot(d, slot, customer) && slot.day <= HighestSent(d.reminders, customer, slot.cycle)
    ensures Attempts(d, customer, slot)
            <==> Find(d.reminders, slot).Some? && Retryable(d.reminders[Find(d.reminders, slot).value])
  {
    AttemptedExactly(d, customer, slot);
  }

  /** A FINAL stage that exists and was not stopped has its owner alert beside it. */
  lemma {:induction false} FinalBringsItsAlert(d: Desk, customer: nat, slot: Slot, i: nat)
    requires IsDueSlot(d, slot, customer) && slot.kind == Final
    requires i < |Generate(d, customer).0.reminders| && Generate(d, customer).0.reminders[i].slot == slot
    requires Find(d.reminders, slot).Some? ==> d.reminders[Find(d.reminders, slot).value].state != Cancelled
    ensures Find(Generate(d, customer).0.reminders, slot.(kind := OwnerAlert)).Some?
  {
    var alert := slot.(kind := OwnerAlert);
    var found := Find(d.reminders, slot);
    if found.Some? {
      AlertExists(d, found.value, if Retryable(d.reminders[found.value]) then [found.value] else []);
    } else if HighestSent(d.reminders, customer, slot.cycle) < slot.day && 0 < Owed(d, customer) {
      var (d1, j) := CreateStage(d, slot);
      AlertExists(d1, j, [j]);
    }
  }

  lemma {:induction false} AlertExists(d: Desk, i: nat, due: seq<nat>)
    requires i < |d.reminders| && d.reminders[i].slot.kind == Final && d.reminders[i].state != Cancelled
    ensures Find(WithAlert(d, i, due).0.reminders, d.reminders[i].slot.(kind := OwnerAlert)).Some?
  {
    var slot, d' := d.reminders[i].slot.(kind := OwnerAlert), WithAlert(d, i, due).0;
    if Find(d.reminders, slot).None? {
      assert d'.reminders[|d.reminders|].slot == slot;
    }
  }

  // ---- a run in which the day falls --------------------------------------------

  function TwoStages(): seq<Stage> {
    [Stage(4, ReminderStage), Stage(8, ReminderStage)]
  }

  lemma {:induction false} DueOfTwo(day: int)
    requires 4 <= day
    ensures DueStage(TwoStages(), day) == Some(TwoStages()[if day < 8 then 0 else 1])
  {
    var s := DueStage(TwoStages(), day);
    assert TwoStages()[0] in TwoStages() && TwoStages()[1] in TwoStages();
  }

  function Owing(day: int, reminders: seq<Reminder>, log: seq<Delivery>): Desk {
    Desk(day, TwoStages(), map[0 := 100], map[0 := 0], {0}, false, reminders, log)
  }

  function DayRow(day: int, state: State, attempts: nat): Reminder {
    Reminder(Slot(0, 0, day, Nudge), 100, state, attempts)
  }

  /** A round for the one customer, when the due row does not exist yet. */
  lemma {:induction false} RoundCreates(
      day: int, due: int, reminders: seq<Reminder>, log: seq<Delivery>, accepted: bool)
    requires 4 <= day && due == (if day < 8 then 4 else 8)
    requires Find(reminders, Slot(0, 0, due, Nudge)).None? && HighestSent(reminders, 0, 0) < due
    ensures ProcessCustomer(Owing(day, reminders, log), 0, [accepted])
            == Owing(day, reminders + [DayRow(due, if accepted then Sent else Failed, 1)],
                     log + [Delivery(|reminders|, 100, accepted, true)])
  {
    DueOfTwo(day);
    var d, i := Owing(day, reminders + [DayRow(due, Pending, 0)], log), |reminders|;
    assert Generate(Owing(day, reminders, log), 0) == (d, [i]);
    assert DispatchAll(d, [i][..0], [accepted]) == d;
    assert d.reminders[i := DayRow(due, if accepted then Sent else Failed, 1)]
        == reminders + [DayRow(due, if accepted then Sent else Failed, 1)];
  }

  /** A round for the one customer, when the due row has failed once. */
  lemma {:induction false} RoundRetries(day: int, i: nat, reminders: seq<Reminder>, log: seq<Delivery>)
    requires 4 <= day < 8 && i < |reminders| && Find(reminders, Slot(0, 0, 4, Nudge)) == Some(i)
    requires reminders[i] == DayRow(4, Failed, 1)
    ensures ProcessCustomer(Owing(day, reminders, log), 0, [true])
            == Owing(day, reminders[i := DayRow(4, Sent, 2)], log + [Delivery(i, 100, true, true)])
  {
    DueOfTwo(day);
    assert Generate(Owing(day, reminders, log), 0) == (Owing(day, reminders, log), [i]);
    assert DispatchAll(Owing(day, reminders, log), [i][..0], [true]) == Owing(day, reminders, log);
  }

  lemma {:induction false} OneMore(schedule: seq<Stage>, day: int, actions: seq<Action>, a: Action, d: Desk)
    requires d == Run(schedule, day, actions)
    ensures Run(schedule, day, actions + [a]) == Next(d, a)
  {
    assert (actions + [a])[..|actions|] == actions;
  }

  /** One customer owes, has a statement and can be reached. */
  lemma {:induction false} OwingIsReachable() returns (actions: seq<Action>)
    ensures Run(TwoStages(), 4, actions) == Owing(4, [], [])
    ensures forall k :: 0 <= k < |actions| ==> actions[k].Owe? || actions[k].NewCycle? || actions[k].Reach?
  {
    var d0 := Start(TwoStages(), 4);
    var d1 := d0.(owed := map[0 := 100]);
    var d2 := d1.(cycles := map[0 := 0]);
    actions := [];
    OneMore(TwoStages(), 4, [], Owe(0, 100), d0);
    OneMore(TwoStages(), 4, [] + [Owe(0, 100)], NewCycle(0, 0), d1);
    OneMore(TwoStages(), 4, [] + [Owe(0, 100)] + [NewCycle(0, 0)], Reach(0, true), d2);
    actions := [] + [Owe(0, 100)] + [NewCycle(0, 0)] + [Reach(0, true)];
  }

  lemma {:induction false} DayFourFails(d: Desk)
    requires d == Owing(4, [], [])
    ensures Next(d, Process(0, [false])) == Owing(4, [DayRow(4, Failed, 1)], [Delivery(0, 100, false, true)])
  {
    RoundCreates(4, 4, [], [], false);
    assert [] + [DayRow(4, Failed, 1)] == [DayRow(4, Failed, 1)];
    assert [] + [Delivery(0, 100, false, true)] == [Delivery(0, 100, false, true)];
  }

  lemma {:induction false} DayEightGoesOut(d: Desk)
    requires d == Owing(9, [DayRow(4, Failed, 1)], [Delivery(0, 100, false, true)])
    ensures Next(d, Process(0, [true]))
            == Owing(9, [DayRow(4, Failed, 1), DayRow(8, Sent, 1)],
                     [Delivery(0, 100, false, true), Delivery(1, 100, true, true)])
  {
    var four, tried := [DayRow(4, Failed, 1)], [Delivery(0, 100, false, true)];
    assert four[..0] == [];
    RoundCreates(9, 8, four, tried, true);
    assert four + [DayRow(8, Sent, 1)] == [DayRow(4, Failed, 1), DayRow(8, Sent, 1)];
  }

  lemma {:induction false} DayFourGoesOut(d: Desk)
    requires d == Owing(5, [DayRow(4, Failed, 1), DayRow(8, Sent, 1)],
                        [Delivery(0, 100, false, true), Delivery(1, 100, true, true)])
    ensures Next(d, Process(0, [true]))
            == Owing(5, [DayRow(4, Sent, 2), DayRow(8, Sent, 1)],
                     [Delivery(0, 100, false, true), Delivery(1, 100, true, true), Delivery(0, 100, true, true)])
  {
    var four, eight := DayRow(4, Failed, 1), DayRow(8, Sent, 1);
    var both := [Delivery(0, 100, false, true), Delivery(1, 100, true, true)];
    assert [four, eight][..1] == [four];
    RoundRetries(5, 0, [four, eight], both);
    assert [four, eight][0 := DayRow(4, Sent, 2)] == [DayRow(4, Sent, 2), eight];
  }

  /** A run from nothing: day 4 fails, day 8 is sent on day 9, the month turns to day 5, and
      day 4 is sent after all, so the runner's days fall. */
  lemma {:induction false} DayFourAfterDayEight() returns (actions: seq<Action>)
    ensures Run(TwoStages(), 4, actions)
            == Owing(5, [DayRow(4, Sent, 2), DayRow(8, Sent, 1)],
                     [Delivery(0, 100, false, true), Delivery(1, 100, true, true), Delivery(0, 100, true, true)])
  {
    var start := OwingIsReachable();
    actions := AfterFive(start, Process(0, [false]), SetDay(9), Process(0, [true]), SetDay(5));
  }

  lemma {:induction false} AfterFive(start: seq<Action>, fail: Action, nine: Action, send: Action, five: Action)
    returns (actions: seq<Action>)
    requires Run(TwoStages(), 4, start) == Owing(4, [], [])
    requires fail == Process(0, [false]) && nine == SetDay(9) && send == Process(0, [true]) && five == SetDay(5)
    ensures Run(TwoStages(), 4, actions)
            == Owing(5, [DayRow(4, Sent, 2), DayRow(8, Sent, 1)],
                     [Delivery(0, 100, false, true), Delivery(1, 100, true, true), Delivery(0, 100, true, true)])
  {
    var d0 := Owing(4, [], []);
    var d1 := Owing(4, [DayRow(4, Failed, 1)], [Delivery(0, 100, false, true)]);
    var d3 := Owing(9, [DayRow(4, Failed, 1), DayRow(8, Sent, 1)],
                    [Delivery(0, 100, false, true), Delivery(1, 100, true, true)]);
    DayFourFails(d0);
    DayEightGoesOut(d1.(day := 9));
    DayFourGoesOut(d3.(day := 5));
    OneMore(TwoStages(), 4, start, fail, d0);
    OneMore(TwoStages(), 4, start + [fail], nine, d1);
    OneMore(TwoStages(), 4, start + [fail] + [nine], send, d1.(day := 9));
    OneMore(TwoStages(), 4, start + [fail] + [nine] + [send], five, d3);
    actions := start + [fail] + [nine] + [send] + [five] + [send];
    OneMore(TwoStages(), 4, start + [fail] + [nine] + [send] + [five], send, d3.(day := 5));
  }
}
