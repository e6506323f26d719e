/** What every run of rounds, payments, re-dispatches and crashes keeps. */
module RemindersSafety {
  import opened Outcomes
  import opened Schedule
  import opened Reminders

  function AcceptedCount(log: seq<Delivery>, i: nat): nat {
    if log == [] then 0
    else
      var last := log[|log| - 1];
      AcceptedCount(log[..|log| - 1], i) + if last.reminder == i && last.accepted then 1 else 0
  }

  function AttemptCount(log: seq<Delivery>, i: nat): nat {
    if log == [] then 0
    else AttemptCount(log[..|log| - 1], i) + if log[|log| - 1].reminder == i then 1 else 0
  }

  /** At most one row per customer, cycle, day and kind. */
  ghost predicate SlotsDistinct(reminders: seq<Reminder>) {
    forall i, j :: 0 <= i < j < |reminders| ==> reminders[i].slot != reminders[j].slot
  }

  /** At most three attempts, and one success exactly when the row is SENT. */
  ghost predicate RowOk(reminders: seq<Reminder>, log: seq<Delivery>, i: nat)
    requires i < |reminders|
  {
    reminders[i].attempts <= MAX_DELIVERY_ATTEMPTS
    && AttemptCount(log, i) <= reminders[i].attempts
    && AcceptedCount(log, i) == if reminders[i].state == Sent then 1 else 0
  }

  /** Every delivery belongs to a row, and one that chases a debt carries a positive
      amount. */
  ghost predicate DeliveryOk(reminders: seq<Reminder>, e: Delivery) {
    e.reminder < |reminders| && (ChasesDebt(reminders[e.reminder].slot.kind) ==> 0 < e.amount)
  }

  ghost predicate Safe(reminders: seq<Reminder>, log: seq<Delivery>) {
    SlotsDistinct(reminders)
    && (forall i :: 0 <= i < |reminders| ==> RowOk(reminders, log, i))
    && (forall k :: 0 <= k < |log| ==> DeliveryOk(reminders, log[k]))
  }

  /** SENT and CANCELLED rows never change again, no row moves or disappears, and the log
      only grows. */
  ghost predicate Absorbing(d: Desk, d': Desk) {
    |d.reminders| <= |d'.reminders| && d.log <= d'.log
    && forall i :: 0 <= i < |d.reminders| ==>
         d'.reminders[i].slot == d.reminders[i].slot
         && (d.reminders[i].state == Sent || d.reminders[i].state == Cancelled ==> d'.reminders[i] == d.reminders[i])
  }

  lemma {:induction false} AbsorbingChains(a: Desk, b: Desk, c: Desk)
    requires Absorbing(a, b) && Absorbing(b, c)
    ensures Absorbing(a, c)
  {
  }

  // ---- dispatch ----------------------------------------------------------------

  lemma {:induction false} CountsAppend(log: seq<Delivery>, e: Delivery, i: nat)
    ensures AcceptedCount(log + [e], i) == AcceptedCount(log, i) + if e.reminder == i && e.accepted then 1 else 0
    ensures AttemptCount(log + [e], i) == AttemptCount(log, i) + if e.reminder == i then 1 else 0
  {
    assert (log + [e])[..|log|] == log;
  }

  /** Row `i` changes without a delivery. */
  lemma {:induction false} RowChanges(reminders: seq<Reminder>, log: seq<Delivery>, i: nat, r: Reminder)
    requires Safe(reminders, log) && i < |reminders| && r.slot == reminders[i].slot
    requires reminders[i].state != Sent && r.state != Sent
             && reminders[i].attempts <= r.attempts <= MAX_DELIVERY_ATTEMPTS
    ensures Safe(reminders[i := r], log)
  {
    var after := reminders[i := r];
    forall j | 0 <= j < |after| ensures RowOk(after, log, j) {
      assert RowOk(reminders, log, j);
    }
    forall k | 0 <= k < |log| ensures DeliveryOk(after, log[k]) {
      assert DeliveryOk(reminders, log[k]);
    }
  }

  /** Row `i` is delivered, or fails to be. */
  lemma {:induction false} RowIsAttempted(
      reminders: seq<Reminder>, log: seq<Delivery>, i: nat, r: Reminder, e: Delivery)
    requires Safe(reminders, log) && i < |reminders| && r.slot == reminders[i].slot
    requires Attemptable(reminders[i]) && r.attempts == reminders[i].attempts + 1 && (e.accepted <==> r.state == Sent)
    requires e.reminder == i && (ChasesDebt(r.slot.kind) ==> 0 < e.amount)
    ensures Safe(reminders[i := r], log + [e])
  {
    var after, log' := reminders[i := r], log + [e];
    forall j | 0 <= j < |after| ensures RowOk(after, log', j) {
      assert RowOk(reminders, log, j);
      CountsAppend(log, e, j);
    }
    forall k | 0 <= k < |log| ensures DeliveryOk(after, log[k]) {
      assert DeliveryOk(reminders, log[k]);
    }
  }

  lemma {:induction false} DispatchKeeps(d: Desk, i: nat, accepted: bool, byRunner: bool)
    requires Safe(d.reminders, d.log)
    ensures var d' := Dispatch(d, i, accepted, byRunner); Safe(d'.reminders, d'.log) && Absorbing(d, d')
  {
    var d' := Dispatch(d, i, accepted, byRunner);
    if i < |d.reminders| && Attemptable(d.reminders[i]) {
      if d'.log == d.log {
        RowChanges(d.reminders, d.log, i, d'.reminders[i]);
      } else {
        RowIsAttempted(d.reminders, d.log, i, d'.reminders[i], d'.log[|d.log|]);
      }
    }
  }

  /** Whatever a delivery carries is the ledger's balance at that moment, whatever the row
      recorded at generation; a debt that is gone cancels the row instead; and every attempt
      is counted and ends SENT or FAILED, SENT only if the provider accepted it. */
  lemma {:induction false} DispatchCarriesTheLedger(d: Desk, i: nat, accepted: bool, byRunner: bool)
    requires i < |d.reminders|
    ensures var d', r := Dispatch(d, i, accepted, byRunner), d.reminders[i];
            var gone := ChasesDebt(r.slot.kind) && Owed(d, r.slot.customer) <= 0;
            (d'.log != d.log ==>
               d'.log == d.log + [Delivery(i, Owed(d, r.slot.customer), accepted, byRunner)]
               && (ChasesDebt(r.slot.kind) ==> 0 < Owed(d, r.slot.customer)))
            && (!Attemptable(r) ==> d' == d)
            && (Attemptable(r) && gone ==> d'.log == d.log && d'.reminders[i] == r.(state := Cancelled))
            && (Attemptable(r) && !gone ==>
                  d'.reminders[i].attempts == r.attempts + 1
                  && (d'.log != d.log <==> HasDestination(d, r.slot))
                  && (d'.reminders[i].state == Sent <==> HasDestination(d, r.slot) && accepted)
                  && (d'.reminders[i].state == Sent || d'.reminders[i].state == Failed))
  {
  }

  lemma {:induction false} DispatchAllKeeps(d: Desk, due: seq<nat>, oracle: seq<bool>)
    requires Safe(d.reminders, d.log)
    ensures var d' := DispatchAll(d, due, oracle); Safe(d'.reminders, d'.log) && Absorbing(d, d')
  {
    if due != [] {
      var last := |due| - 1;
      var before := DispatchAll(d, due[..last], oracle);
      DispatchAllKeeps(d, due[..last], oracle);
      DispatchKeeps(before, due[last], Accepts(oracle, last), true);
      AbsorbingChains(d, before, DispatchAll(d, due, oracle));
    }
  }

  // ---- generation --------------------------------------------------------------

  lemma {:induction false} NoAttempts(reminders: seq<Reminder>, log: seq<Delivery>, i: nat)
    requires i >= |reminders| && forall k :: 0 <= k < |log| ==> log[k].reminder < |reminders|
    ensures AcceptedCount(log, i) == 0 && AttemptCount(log, i) == 0
  {
    if log != [] {
      NoAttempts(reminders, log[..|log| - 1], i);
    }
  }

  lemma {:induction false} CreateKeeps(d: Desk, slot: Slot)
    requires Safe(d.reminders, d.log)
    ensures var d' := CreateStage(d, slot).0; Safe(d'.reminders, d'.log) && Absorbing(d, d') && d'.log == d.log
  {
    var d' := CreateStage(d, slot).0;
    forall k | 0 <= k < |d.log| ensures DeliveryOk(d'.reminders, d.log[k]) && d.log[k].reminder < |d.reminders| {
      assert DeliveryOk(d.reminders, d.log[k]);
    }
    NoAttempts(d.reminders, d.log, |d.reminders|);
    forall j | 0 <= j < |d'.reminders| ensures RowOk(d'.reminders, d'.log, j) {
      if j < |d.reminders| {
        assert RowOk(d.reminders, d.log, j);
      }
    }
  }

  lemma {:induction false} WithAlertKeeps(d: Desk, i: nat, due: seq<nat>)
    requires i < |d.reminders| && Safe(d.reminders, d.log)
    ensures var d' := WithAlert(d, i, due).0; Safe(d'.reminders, d'.log) && Absorbing(d, d') && d'.log == d.log
  {
    CreateKeeps(d, d.reminders[i].slot.(kind := OwnerAlert));
  }

  lemma {:induction false} GenerateKeeps(d: Desk, customer: nat)
    requires Safe(d.reminders, d.log)
    ensures var d' := Generate(d, customer).0; Safe(d'.reminders, d'.log) && Absorbing(d, d') && d'.log == d.log
  {
    if customer in d.cycles && DueStage(d.schedule, d.day).Some? {
      var stage := DueStage(d.schedule, d.day).value;
      var slot := Slot(customer, d.cycles[customer], stage.day, KindOf(stage.kind));
      var found := Find(d.reminders, slot);
      if found.Some? {
        WithAlertKeeps(d, found.value, if Retryable(d.reminders[found.value]) then [found.value] else []);
      } else {
        CreateKeeps(d, slot);
        var (d1, i) := CreateStage(d, slot);
        WithAlertKeeps(d1, i, [i]);
        AbsorbingChains(d, d1, WithAlert(d1, i, [i]).0);
      }
    }
  }

  lemma {:induction false} ProcessKeeps(d: Desk, customer: nat, oracle: seq<bool>)
    requires Safe(d.reminders, d.log)
    ensures var d' := ProcessCustomer(d, customer, oracle); Safe(d'.reminders, d'.log) && Absorbing(d, d')
  {
    var (generated, due) := Generate(d, customer);
    GenerateKeeps(d, customer);
    DispatchAllKeeps(generated, due, oracle);
    AbsorbingChains(d, generated, DispatchAll(generated, due, oracle));
  }

  // ---- runs --------------------------------------------------------------------

  lemma {:induction false} NextKeeps(d: Desk, a: Action)
    requires Safe(d.reminders, d.log)
    ensures Safe(Next(d, a).reminders, Next(d, a).log) && Absorbing(d, Next(d, a))
  {
    match a
    case Process(c, oracle) => ProcessKeeps(d, c, oracle);
    case Redispatch(i, accepted) => DispatchKeeps(d, i, accepted, false);
    case _ =>
  }

  /** Over every run: at most one row per slot, at most three attempts and one success per
      row, and no debt-chasing delivery without a positive balance. */
  lemma {:induction false} RunIsSafe(schedule: seq<Stage>, day: int, actions: seq<Action>)
    ensures var d := Run(schedule, day, actions); Safe(d.reminders, d.log)
  {
    if actions != [] {
      RunIsSafe(schedule, day, actions[..|actions| - 1]);
      NextKeeps(Run(schedule, day, actions[..|actions| - 1]), actions[|actions| - 1]);
    }
  }

  /** SENT and CANCELLED are absorbing over every run. */
  lemma {:induction false} RunAbsorbs(schedule: seq<Stage>, day: int, actions: seq<Action>, n: nat)
    requires n <= |actions|
    ensures Absorbing(Run(schedule, day, actions[..n]), Run(schedule, day, actions))
  {
    if n < |actions| {
      var last := |actions| - 1;
      assert actions[..last][..n] == actions[..n];
      RunAbsorbs(schedule, day, actions[..last], n);
      RunIsSafe(schedule, day, actions[..last]);
      NextKeeps(Run(schedule, day, actions[..last]), actions[last]);
      AbsorbingChains(Run(schedule, day, actions[..n]), Run(schedule, day, actions[..last]),
                      Run(schedule, day, actions));
    } else {
      assert actions[..n] == actions;
    }
  }

  // ---- what a delivery carried -------------------------------------------------

  /** The deliveries added since a state carry its balances. */
  ghost predicate CarriesBalances(d: Desk, d': Desk) {
    d'.owed == d.owed && d.log <= d'.log
    && forall k :: |d.log| <= k < |d'.log| ==>
         d'.log[k].reminder < |d'.reminders|
         && d'.log[k].amount == Owed(d, d'.reminders[d'.log[k].reminder].slot.customer)
  }

  lemma {:induction false} DispatchAllCarries(d: Desk, due: seq<nat>, oracle: seq<bool>)
    ensures CarriesBalances(d, DispatchAll(d, due, oracle))
  {
    if due != [] {
      var last := |due| - 1;
      var before := DispatchAll(d, due[..last], oracle);
      DispatchAllCarries(d, due[..last], oracle);
      DispatchCarries(before, due[last], Accepts(oracle, last), true);
      CarriesChain(d, before, DispatchAll(d, due, oracle));
    }
  }

  lemma {:induction false} DispatchCarries(d: Desk, i: nat, accepted: bool, byRunner: bool)
    ensures var d' := Dispatch(d, i, accepted, byRunner);
            CarriesBalances(d, d') && |d'.reminders| == |d.reminders|
            && forall j :: 0 <= j < |d.reminders| ==> d'.reminders[j].slot == d.reminders[j].slot
  {
    if i < |d.reminders| {
      DispatchCarriesTheLedger(d, i, accepted, byRunner);
    }
  }

  lemma {:induction false} CarriesChain(d: Desk, before: Desk, after: Desk)
    requires CarriesBalances(d, before) && CarriesBalances(before, after) && |before.reminders| == |after.reminders|
    requires forall j :: 0 <= j < |before.reminders| ==> after.reminders[j].slot == before.reminders[j].slot
    ensures CarriesBalances(d, after)
  {
    forall k | |d.log| <= k < |after.log|
      ensures after.log[k].reminder < |after.reminders|
              && after.log[k].amount == Owed(d, after.reminders[after.log[k].reminder].slot.customer)
    {
      if k < |before.log| {
        assert after.log[k] == before.log[k];
      }
    }
  }

  lemma {:induction false} GenerateOwes(d: Desk, customer: nat)
    ensures Generate(d, customer).0.owed == d.owed && Generate(d, customer).0.log == d.log
  {
    if customer in d.cycles && DueStage(d.schedule, d.day).Some? {
      var stage := DueStage(d.schedule, d.day).value;
      var slot := Slot(customer, d.cycles[customer], stage.day, KindOf(stage.kind));
      var found := Find(d.reminders, slot);
      if found.Some? {
        WithAlertOwes(d, found.value, if Retryable(d.reminders[found.value]) then [found.value] else []);
      } else {
        var (d1, i) := CreateStage(d, slot);
        WithAlertOwes(d1, i, [i]);
      }
    }
  }

  lemma {:induction false} WithAlertOwes(d: Desk, i: nat, due: seq<nat>)
    requires i < |d.reminders|
    ensures WithAlert(d, i, due).0.owed == d.owed && WithAlert(d, i, due).0.log == d.log
  {
  }

  lemma {:induction false} NextCarries(d: Desk, a: Action)
    ensures Next(d, a).log != d.log ==> CarriesBalances(d, Next(d, a))
    ensures d.log <= Next(d, a).log
  {
    match a
    case Process(c, oracle) =>
      GenerateOwes(d, c);
      DispatchAllCarries(Generate(d, c).0, Generate(d, c).1, oracle);
    case Redispatch(i, accepted) => DispatchCarries(d, i, accepted, false);
    case _ =>
  }

  /** Over every run, every delivery in the log carried its customer's balance at the moment
      the provider was called, whatever the balance was before or has been since. */
  lemma {:induction false} EveryDeliveryCarriedTheBalance(
      schedule: seq<Stage>, day: int, actions: seq<Action>, k: nat) returns (n: nat)
    requires k < |Run(schedule, day, actions).log|
    ensures n < |actions|
    ensures var before, after := Run(schedule, day, actions[..n]), Run(schedule, day, actions[..n + 1]);
            var now := Run(schedule, day, actions);
            |before.log| <= k < |after.log| && after.owed == before.owed
            && now.log[k] == after.log[k] && now.log[k].reminder < |now.reminders|
            && now.log[k].amount == Owed(before, now.reminders[now.log[k].reminder].slot.customer)
  {
    var m: nat := |actions| - 1;
    var before, a := Run(schedule, day, actions[..m]), actions[m];
    assert actions[..m + 1] == actions;
    RunIsSafe(schedule, day, actions[..m]);
    NextKeeps(before, a);
    NextCarries(before, a);
    if |before.log| <= k {
      n := m;
    } else {
      n := EveryDeliveryCarriedTheBalance(schedule, day, actions[..m], k);
      assert actions[..m][..n] == actions[..n] && actions[..m][..n + 1] == actions[..n + 1];
    }
  }
}
