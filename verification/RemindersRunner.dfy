/** The engine and the daily runner, in place: rows updated field by field, one commit per
    customer, a job row as the day's guard, and a process that may die at any customer. */
module RemindersRunner {
  import opened Outcomes
  import opened Schedule
  import opened Reminders
  import opened RemindersSafety
  import opened RemindersDelivery

  datatype JobStatus = Running | JobFailed | Succeeded

  /** How a round ends: nothing to do, done, an exception, or a killed process. */
  datatype RoundEnd = AlreadyRun | Completed | Raised | Killed

  /** What interrupts a round, and at which customer. */
  datatype Stop = NoStop | RaiseAt(at: nat) | KillAt(at: nat)

  /** The customers handled so far, each committed. */
  function Round(d: Desk, customers: seq<nat>, oracle: nat -> seq<bool>): Desk {
    if customers == [] then d
    else
      var last := |customers| - 1;
      ProcessCustomer(Round(d, customers[..last], oracle), customers[last], oracle(last))
  }

  /** A round is a run of the step machine, so everything proved over runs holds of it: the
      committed log has one success per SENT row, however often the round was resumed. The
      provider may have seen more. */
  lemma {:induction false} RoundIsSafe(d: Desk, customers: seq<nat>, oracle: nat -> seq<bool>)
    requires Safe(d.reminders, d.log)
    ensures var d' := Round(d, customers, oracle); Safe(d'.reminders, d'.log) && Absorbing(d, d')
  {
    if customers != [] {
      var last := |customers| - 1;
      RoundIsSafe(d, customers[..last], oracle);
      ProcessKeeps(Round(d, customers[..last], oracle), customers[last], oracle(last));
      AbsorbingChains(d, Round(d, customers[..last], oracle), Round(d, customers, oracle));
    }
  }

  /** What the provider accepts during a round. */
  function RoundSends(d: Desk, customers: seq<nat>, oracle: nat -> seq<bool>): seq<Slot> {
    if customers == [] then []
    else
      var last := |customers| - 1;
      RoundSends(d, customers[..last], oracle)
      + Sends(Round(d, customers[..last], oracle), Process(customers[last], oracle(last)))
  }

  /** These customers have been handled: the state is that of their round, and the provider
      has what the round sent on top of what it had. */
  ghost predicate Handled(
      d: Desk, sent: seq<Slot>, customers: seq<nat>, oracle: nat -> seq<bool>, d': Desk, sent': seq<Slot>)
  {
    d' == Round(d, customers, oracle) && sent' == sent + RoundSends(d, customers, oracle)
  }

  predicate StopsAt(stop: Stop, n: nat) {
    !stop.NoStop? && stop.at < n
  }

  /** A round stopped at a customer: the earlier ones were served, and on top of what they
      sent the provider has what this one sent before it died. */
  ghost predicate StoppedAt(
      stop: Stop, customers: seq<nat>, oracle: nat -> seq<bool>, served: seq<nat>, d: Desk, committed: seq<Slot>,
      wire: seq<Slot>)
  {
    StopsAt(stop, |customers|) && served == customers[..stop.at]
    && wire == committed + Sends(d, Crash(customers[stop.at], oracle(stop.at)))
  }

  lemma {:induction false} MarkedOver(jobs: map<nat, JobStatus>, date: nat, first: JobStatus, later: JobStatus)
    ensures jobs[date := first][date := later] == jobs[date := later]
  {
  }

  lemma {:induction false} HandledNone(d: Desk, sent: seq<Slot>, oracle: nat -> seq<bool>)
    ensures Handled(d, sent, [], oracle, d, sent)
  {
    assert sent + [] == sent;
  }

  lemma {:induction false} OneMoreHandled(
      d: Desk, customers: seq<nat>, k: nat, m: nat, oracle: nat -> seq<bool>, here: Desk)
    requires k < |customers| && m == k + 1 && here == Round(d, customers[..k], oracle)
    ensures Round(d, customers[..m], oracle) == ProcessCustomer(here, customers[k], oracle(k))
    ensures RoundSends(d, customers[..m], oracle)
            == RoundSends(d, customers[..k], oracle) + Sends(here, Process(customers[k], oracle(k)))
  {
    assert customers[..m][..k] == customers[..k];
  }

  lemma {:induction false} HandledNext(
      d: Desk, sent: seq<Slot>, before: seq<nat>, after: seq<nat>, oracle: nat -> seq<bool>,
      here: Desk, wire: seq<Slot>, next: Desk, added: seq<Slot>)
    requires Handled(d, sent, before, oracle, here, wire) && next == Round(d, after, oracle)
    requires RoundSends(d, after, oracle) == RoundSends(d, before, oracle) + added
    ensures Handled(d, sent, after, oracle, next, wire + added)
  {
    JoinsAssociate(sent, RoundSends(d, before, oracle), added);
  }

  lemma {:induction false} JoinsAssociate(a: seq<Slot>, b: seq<Slot>, c: seq<Slot>)
    ensures (a + b) + c == a + (b + c)
  {
  }

  lemma {:induction false} OneAccepted(reminders: seq<Reminder>, log: seq<Delivery>, e: Delivery)
    requires e.reminder < |reminders|
    ensures AcceptedSlots(reminders, log + [e], |log|) == if e.accepted then [reminders[e.reminder].slot] else []
  {
    assert (log + [e])[..|log|] == log;
  }

  /** Deliveries only: rows keep their slots, and every new log entry cites a row. */
  ghost predicate Delivers(d: Desk, d': Desk) {
    |d'.reminders| == |d.reminders| && d.log <= d'.log && NewCitesRows(d, d')
    && forall i :: 0 <= i < |d.reminders| ==> d'.reminders[i].slot == d.reminders[i].slot
  }

  lemma {:induction false} DeliversOne(d: Desk, here: Desk, i: nat, accepted: bool, byRunner: bool)
    requires Delivers(d, here) && i < |here.reminders|
    ensures var next := Dispatch(here, i, accepted, byRunner);
            Delivers(d, next) && Accepted(d, next) == Accepted(d, here) + Accepted(here, next)
  {
    AcceptedChains(d, here, Dispatch(here, i, accepted, byRunner));
  }

  /** These rows have been dispatched, and the provider has what they sent. */
  ghost predicate DueDone(d: Desk, due: seq<nat>, oracle: seq<bool>, d': Desk, sent: seq<Slot>, wire: seq<Slot>) {
    d' == DispatchAll(d, due, oracle) && Delivers(d, d') && wire == sent + Accepted(d, d')
  }

  lemma {:induction false} DueNone(d: Desk, oracle: seq<bool>, sent: seq<Slot>)
    ensures DueDone(d, [], oracle, d, sent, sent)
  {
    assert sent + [] == sent;
  }

  lemma {:induction false} DueNext(
      d: Desk, due: seq<nat>, k: nat, n: nat, oracle: seq<bool>, here: Desk, sent: seq<Slot>, wire: seq<Slot>)
    requires k < |due| && n == k + 1 && DueDone(d, due[..k], oracle, here, sent, wire) && due[k] < |here.reminders|
    ensures var next := Dispatch(here, due[k], Accepts(oracle, k), true);
            DueDone(d, due[..n], oracle, next, sent, wire + Accepted(here, next))
  {
    assert due[..n][..k] == due[..k];
    DeliversOne(d, here, due[k], Accepts(oracle, k), true);
  }

  lemma {:induction false} GenerationSendsNothing(d: Desk, generated: Desk, d': Desk)
    requires generated.log == d.log
    ensures Accepted(d, d') == Accepted(generated, d')
  {
  }

  class Engine {
    const schedule: seq<Stage>
    var day: int
    var owed: map<nat, int>
    var cycles: map<nat, nat>
    var reachable: set<nat>
    var ownerReachable: bool
    var reminders: seq<Reminder>
    var log: seq<Delivery>
    ghost var wire: seq<Slot>       // the messages the provider has accepted, never rolled back
    var jobs: map<nat, JobStatus>   // by business date

    ghost function View(): Desk
      reads this
    {
      Desk(day, schedule, owed, cycles, reachable, ownerReachable, reminders, log)
    }

    constructor (schedule: seq<Stage>, day: int)
      ensures View() == Start(schedule, day) && jobs == map[] && wire == []
    {
      this.schedule, this.day := schedule, day;
      owed, cycles, reachable, ownerReachable := map[], map[], {}, false;
      reminders, log, wire, jobs := [], [], [], map[];
    }

    method Outstanding(customer: nat) returns (amount: int)
      ensures amount == Owed(View(), customer)
    {
      amount := if customer in owed then owed[customer] else 0;
    }

    // ---- generation ------------------------------------------------------------

    method CreateRow(slot: Slot) returns (i: nat)
      modifies `reminders
      ensures (View(), i) == CreateStage(old(View()), slot)
    {
      var winner := Find(reminders, slot);
      if winner.Some? {
        return winner.value;
      }
      var amount := Outstanding(slot.customer);
      reminders := reminders + [Reminder(slot, amount, Pending, 0)];
      return |reminders| - 1;
    }

    method AddAlert(i: nat, due: seq<nat>) returns (r: seq<nat>)
      requires i < |reminders|
      modifies `reminders
      ensures (View(), r) == WithAlert(old(View()), i, due)
    {
      r := due;
      if reminders[i].slot.kind == Final && reminders[i].state != Cancelled {
        var slot := reminders[i].slot.(kind := OwnerAlert);
        var alert := Find(reminders, slot);
        if alert.None? {
          var j := CreateRow(slot);
          r := r + [j];
        } else if Retryable(reminders[alert.value]) {
          r := r + [alert.value];
        }
      }
    }

    method GenerateDue(customer: nat) returns (due: seq<nat>)
      modifies `reminders
      ensures (View(), due) == Generate(old(View()), customer)
    {
      if customer !in cycles {
        return [];
      }
      var stage := FindDueStage(schedule, day);
      if stage.None? {
        return [];
      }
      var slot := Slot(customer, cycles[customer], stage.value.day, KindOf(stage.value.kind));
      var existing := Find(reminders, slot);
      if existing.None? {
        if stage.value.day <= HighestSent(reminders, customer, slot.cycle) {
          return [];
        }
        var amount := Outstanding(customer);
        if ChasesDebt(slot.kind) && amount <= 0 {
          return [];
        }
        var i := CreateRow(slot);
        due := AddAlert(i, [i]);
      } else {
        due := AddAlert(existing.value, if Retryable(reminders[existing.value]) then [existing.value] else []);
      }
    }

    // ---- dispatch --------------------------------------------------------------

    method DispatchReminder(i: nat, accepted: bool, byRunner: bool)
      requires i < |reminders|
      modifies `reminders, `log, `wire
      ensures View() == Dispatch(old(View()), i, accepted, byRunner)
      ensures wire == old(wire) + Accepted(old(View()), View())
    {
      var r := reminders[i];
      if r.state == Sent || r.state == Cancelled {
        return;
      }
      if MAX_DELIVERY_ATTEMPTS <= r.attempts {
        return;
      }
      var now := Outstanding(r.slot.customer);
      if ChasesDebt(r.slot.kind) && now <= 0 {
        reminders := reminders[i := r.(state := Cancelled)];
        return;
      }
      var found := if r.slot.kind == OwnerAlert then ownerReachable else r.slot.customer in reachable;
      if !found {
        reminders := reminders[i := r.(state := Failed, attempts := r.attempts + 1)];
        return;
      }
      wire := wire + if accepted then [r.slot] else [];
      log := log + [Delivery(i, now, accepted, byRunner)];
      reminders := reminders[i := r.(state := if accepted then Sent else Failed, attempts := r.attempts + 1)];
      OneAccepted(reminders, old(log), log[|old(log)|]);
    }

    method DispatchDue(due: seq<nat>, oracle: seq<bool>)
      requires forall x :: x in due ==> x < |reminders|
      modifies `reminders, `log, `wire
      ensures View() == DispatchAll(old(View()), due, oracle)
      ensures wire == old(wire) + Accepted(old(View()), View())
    {
      ghost var before, sent := View(), wire;
      var k := 0;
      DueNone(before, oracle, sent);
      while k < |due|
        invariant 0 <= k <= |due|
        invariant DueDone(before, due[..k], oracle, View(), sent, wire)
      {
        ghost var here, wired, n := View(), wire, k + 1;
        assert due[k] in due;
        DispatchReminder(due[k], Accepts(oracle, k), true);
        DueNext(before, due, k, n, oracle, here, sent, wired);
        k := k + 1;
      }
      assert due[..k] == due;
    }

    /** Generate the due stage for one customer and deliver it. */
    method ProcessOne(customer: nat, oracle: seq<bool>)
      modifies `reminders, `log, `wire
      ensures View() == ProcessCustomer(old(View()), customer, oracle)
      ensures wire == old(wire) + Sends(old(View()), Process(customer, oracle))
    {
      ghost var before := View();
      DueAreRows(View(), customer);
      var due := GenerateDue(customer);
      ghost var generated := View();
      DispatchDue(due, oracle);
      GenerationSendsNothing(before, generated, View());
    }

    /** The owner re-sends a row; the process may die before the commit. */
    method Resend(i: nat, accepted: bool, dies: bool)
      requires i < |reminders|
      modifies `reminders, `log, `wire
      ensures var a := if dies then CrashRedispatch(i, accepted) else Redispatch(i, accepted);
              View() == Next(old(View()), a) && wire == old(wire) + Sends(old(View()), a)
    {
      var rows, deliveries := reminders, log;
      DispatchReminder(i, accepted, false);
      if dies {
        reminders, log := rows, deliveries;
      }
    }

    // ---- the daily round -------------------------------------------------------

    /** Only a SUCCEEDED row short-circuits; a failed or abandoned run is claimed again. */
    method ClaimRun(date: nat) returns (claimed: bool)
      modifies `jobs
      ensures claimed <==> !(date in old(jobs) && old(jobs)[date] == Succeeded)
      ensures jobs == if claimed then old(jobs)[date := Running] else old(jobs)
    {
      if date in jobs && jobs[date] == Succeeded {
        return false;
      }
      jobs := jobs[date := Running];
      return true;
    }

    /** A customer whose transaction is never committed. */
    method Interrupted(customer: nat, oracle: seq<bool>)
      modifies `reminders, `log, `wire
      ensures View() == Next(old(View()), Crash(customer, oracle))
      ensures wire == old(wire) + Sends(old(View()), Crash(customer, oracle))
    {
      var rows, deliveries := reminders, log;
      ProcessOne(customer, oracle);
      reminders, log := rows, deliveries;
    }

    /** One customer, one commit. A stop at customer `k` leaves the first `k` durably done
        and the rest untouched; what the provider had already accepted for customer `k` is
        forgotten, but has been sent. */
    method HandleCustomers(customers: seq<nat>, oracle: nat -> seq<bool>, stop: Stop)
      returns (finished: bool, ghost committed: seq<Slot>)
      modifies `reminders, `log, `wire
      ensures finished <==> !StopsAt(stop, |customers|)
      ensures Handled(old(View()), old(wire), if finished then customers else customers[..stop.at], oracle, View(),
                      committed)
      ensures finished ==> wire == committed
      ensures !finished ==> wire == committed + Sends(View(), Crash(customers[stop.at], oracle(stop.at)))
    {
      ghost var before, sent := View(), wire;
      assert wire == sent + [];
      var k := 0;
      while k < |customers|
        invariant 0 <= k <= |customers| && !StopsAt(stop, k)
        invariant Handled(before, sent, customers[..k], oracle, View(), wire)
      {
        ghost var here, wired := View(), wire;
        if stop != NoStop && stop.at == k {
          Interrupted(customers[k], oracle(k));
          return false, wired;
        }
        var n := k + 1;
        OneMoreHandled(before, customers, k, n, oracle, here);
        ProcessOne(customers[k], oracle(k));
        HandledNext(before, sent, customers[..k], customers[..n], oracle, here, wired, View(), wire[|wired|..]);
        k := n;
      }
      assert customers[..k] == customers;
      return true, wire;
    }

    /** The day's round: the customers it served, each committed, and what the provider had
        been sent by then. One that succeeded is never repeated on its date; one that raised
        or was killed may be. */
    method RunDaily(date: nat, customers: seq<nat>, oracle: nat -> seq<bool>, stop: Stop)
      returns (end: RoundEnd, ghost served: seq<nat>, ghost committed: seq<Slot>)
      modifies this
      ensures Handled(old(View()), old(wire), served, oracle, View(), committed)
      ensures end == if date in old(jobs) && old(jobs)[date] == Succeeded then AlreadyRun
                     else if DueStage(schedule, old(day)).None? || !StopsAt(stop, |customers|) then Completed
                     else if stop.RaiseAt? then Raised
                     else Killed
      ensures end == AlreadyRun ==> served == [] && wire == committed && jobs == old(jobs)
      ensures end == Completed ==>
                served == (if DueStage(schedule, old(day)).None? then [] else customers)
                && wire == committed && jobs == old(jobs)[date := Succeeded]
      ensures end == Raised || end == Killed ==>
                jobs == old(jobs)[date := if end == Raised then JobFailed else Running]
                && StoppedAt(stop, customers, oracle, served, View(), committed, wire)
    {
      HandledNone(View(), wire, oracle);
      var stage := FindDueStage(schedule, day);
      var claimed := ClaimRun(date);
      if !claimed {
        return AlreadyRun, [], wire;
      }
      if stage.None? {
        jobs := jobs[date := Succeeded];
        return Completed, [], wire;
      }
      end, served, committed := Serve(date, customers, oracle, stop);
      MarkedOver(old(jobs), date, Running, Succeeded);
      MarkedOver(old(jobs), date, Running, JobFailed);
    }

    /** The round of a claimed date with a stage due. */
    method Serve(date: nat, customers: seq<nat>, oracle: nat -> seq<bool>, stop: Stop)
      returns (end: RoundEnd, ghost served: seq<nat>, ghost committed: seq<Slot>)
      modifies this
      ensures Handled(old(View()), old(wire), served, oracle, View(), committed)
      ensures end == if !StopsAt(stop, |customers|) then Completed else if stop.RaiseAt? then Raised else Killed
      ensures end == Completed ==> served == customers && wire == committed && jobs == old(jobs)[date := Succeeded]
      ensures end != Completed ==>
                jobs == (if end == Raised then old(jobs)[date := JobFailed] else old(jobs))
                && StoppedAt(stop, customers, oracle, served, View(), committed, wire)
    {
      var finished;
      finished, committed := HandleCustomers(customers, oracle, stop);
      if !finished {
        if stop.RaiseAt? {
          jobs := jobs[date := JobFailed];
          return Raised, customers[..stop.at], committed;
        }
        return Killed, customers[..stop.at], committed;
      }
      jobs := jobs[date := Succeeded];
      return Completed, customers, committed;
    }
  }

  lemma {:induction false} DueAreRows(d: Desk, customer: nat)
    ensures var (generated, due) := Generate(d, customer); forall x :: x in due ==> x < |generated.reminders|
  {
    GenerateTouches(d, customer);
  }
}
