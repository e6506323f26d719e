/** The reminder engine: which stage a customer gets, what amount goes out, and what a
    payment, a failure or a crash in between does to it. One tenant; rows are never
    removed, and a row's id is its position. */
module Reminders {
  import opened Outcomes
  import opened Schedule

  datatype MessageKind = Bill | Nudge | Final | OwnerAlert

  function KindOf(kind: StageKind): MessageKind {
    match kind
    case StatementStage => Bill
    case ReminderStage => Nudge
    case FinalStage => Final
  }

  /** Kinds sent only while something is owed. */
  predicate ChasesDebt(kind: MessageKind) {
    kind != Bill
  }

  /** The unique key of a stage row. */
  datatype Slot = Slot(customer: nat, cycle: nat, day: int, kind: MessageKind)

  datatype State = Pending | Sent | Failed | Cancelled

  datatype Reminder = Reminder(slot: Slot, amountAtGeneration: int, state: State, attempts: nat)

  /** One attempt handed to the provider. */
  datatype Delivery = Delivery(reminder: nat, amount: int, accepted: bool, byRunner: bool)

  datatype Desk = Desk(
    day: int,                  // day of the month of the business date
    schedule: seq<Stage>,
    owed: map<nat, int>,       // the ledger's outstanding balance, per customer
    cycles: map<nat, nat>,     // the cycle of each customer's latest statement
    reachable: set<nat>,       // customers with a phone or WhatsApp number
    ownerReachable: bool,
    reminders: seq<Reminder>,
    log: seq<Delivery>)

  const MAX_DELIVERY_ATTEMPTS: nat := 3

  function Owed(d: Desk, customer: nat): int {
    if customer in d.owed then d.owed[customer] else 0
  }

  // ---- lookups -----------------------------------------------------------------

  function Find(reminders: seq<Reminder>, slot: Slot): (r: Option<nat>)
    ensures r.Some? ==> r.value < |reminders| && reminders[r.value].slot == slot
    ensures r.None? ==> forall i :: 0 <= i < |reminders| ==> reminders[i].slot != slot
  {
    if reminders == [] then None
    else if reminders[|reminders| - 1].slot == slot then Some(|reminders| - 1)
    else Find(reminders[..|reminders| - 1], slot)
  }

  predicate CountsAsSent(r: Reminder, customer: nat, cycle: nat) {
    r.slot.customer == customer && r.slot.cycle == cycle && r.slot.kind != OwnerAlert && r.state == Sent
  }

  /** The highest customer-facing stage successfully sent in a cycle, or 0. */
  function HighestSent(reminders: seq<Reminder>, customer: nat, cycle: nat): (h: int)
    ensures 0 <= h
    ensures forall i :: 0 <= i < |reminders| && CountsAsSent(reminders[i], customer, cycle) ==>
              reminders[i].slot.day <= h
    ensures h == 0
            || exists i :: 0 <= i < |reminders|
                           && CountsAsSent(reminders[i], customer, cycle) && reminders[i].slot.day == h
  {
    if reminders == [] then 0
    else
      var last := reminders[|reminders| - 1];
      var h := HighestSent(reminders[..|reminders| - 1], customer, cycle);
      assert forall i :: 0 <= i < |reminders| - 1 ==> reminders[..|reminders| - 1][i] == reminders[i];
      if CountsAsSent(last, customer, cycle) && h < last.slot.day then last.slot.day else h
  }

  predicate Retryable(r: Reminder) {
    r.state == Pending || (r.state == Failed && r.attempts < MAX_DELIVERY_ATTEMPTS)
  }

  // ---- generation --------------------------------------------------------------

  /** Insert a stage row, or reload the one that already holds its slot. */
  function CreateStage(d: Desk, slot: Slot): (r: (Desk, nat))
    ensures r.1 < |r.0.reminders| && r.0.reminders[r.1].slot == slot
  {
    match Find(d.reminders, slot)
    case Some(i) => (d, i)
    case None => (d.(reminders := d.reminders + [Reminder(slot, Owed(d, slot.customer), Pending, 0)]), |d.reminders|)
  }

  /** A FINAL stage that was not stopped brings the owner's alert with it. */
  function WithAlert(d: Desk, i: nat, due: seq<nat>): (Desk, seq<nat>)
    requires i < |d.reminders|
  {
    var stage := d.reminders[i];
    if stage.slot.kind != Final || stage.state == Cancelled then (d, due)
    else
      var slot := stage.slot.(kind := OwnerAlert);
      match Find(d.reminders, slot)
      case None => var (d1, j) := CreateStage(d, slot); (d1, due + [j])
      case Some(j) => (d, if Retryable(d.reminders[j]) then due + [j] else due)
  }

  function Generate(d: Desk, customer: nat): (Desk, seq<nat>) {
    if customer !in d.cycles then (d, [])
    else
      match DueStage(d.schedule, d.day)
      case None => (d, [])
      case Some(stage) =>
        var slot := Slot(customer, d.cycles[customer], stage.day, KindOf(stage.kind));
        match Find(d.reminders, slot)
        case Some(i) => WithAlert(d, i, if Retryable(d.reminders[i]) then [i] else [])
        case None =>
          if stage.day <= HighestSent(d.reminders, customer, slot.cycle) then (d, [])
          else if ChasesDebt(slot.kind) && Owed(d, customer) <= 0 then (d, [])
          else var (d1, i) := CreateStage(d, slot); WithAlert(d1, i, [i])
  }

  // ---- dispatch ----------------------------------------------------------------

  predicate HasDestination(d: Desk, slot: Slot) {
    if slot.kind == OwnerAlert then d.ownerReachable else slot.customer in d.reachable
  }

  function WithReminder(d: Desk, i: nat, r: Reminder): Desk
    requires i < |d.reminders|
  {
    d.(reminders := d.reminders[i := r])
  }

  /** Neither settled nor out of attempts. */
  predicate Attemptable(r: Reminder) {
    r.state != Sent && r.state != Cancelled && r.attempts < MAX_DELIVERY_ATTEMPTS
  }

  /** Re-check eligibility, re-read the amount, then deliver. */
  function Dispatch(d: Desk, i: nat, accepted: bool, byRunner: bool): Desk {
    if |d.reminders| <= i then d
    else
      var r := d.reminders[i];
      if !Attemptable(r) then d
      else
        var now := Owed(d, r.slot.customer);
        if ChasesDebt(r.slot.kind) && now <= 0 then WithReminder(d, i, r.(state := Cancelled))
        else if !HasDestination(d, r.slot) then WithReminder(d, i, r.(state := Failed, attempts := r.attempts + 1))
        else
          WithReminder(d, i, r.(state := if accepted then Sent else Failed, attempts := r.attempts + 1))
          .(log := d.log + [Delivery(i, now, accepted, byRunner)])
  }

  predicate Accepts(oracle: seq<bool>, k: nat) {
    k < |oracle| && oracle[k]
  }

  /** The runner's deliveries, in order. */
  function DispatchAll(d: Desk, due: seq<nat>, oracle: seq<bool>): Desk {
    if due == [] then d
    else
      var last := |due| - 1;
      Dispatch(DispatchAll(d, due[..last], oracle), due[last], Accepts(oracle, last), true)
  }

  /** The runner's unit of work, and its unit of commit. */
  function ProcessCustomer(d: Desk, customer: nat, oracle: seq<bool>): Desk {
    var (generated, due) := Generate(d, customer);
    DispatchAll(generated, due, oracle)
  }

  // ---- everything that can happen ----------------------------------------------

  predicate FreshCycle(reminders: seq<Reminder>, customer: nat, cycle: nat) {
    forall i :: 0 <= i < |reminders| ==> !(reminders[i].slot.customer == customer && reminders[i].slot.cycle == cycle)
  }

  datatype Action =
    | Owe(customer: nat, amount: int)            // a charge, a payment, a void: any new balance
    | NewCycle(customer: nat, cycle: nat)        // a close issued the customer's next statement
    | SetDay(day: int)
    | Reach(customer: nat, reachable: bool)
    | ReachOwner(reachable: bool)
    | Process(customer: nat, oracle: seq<bool>)  // one customer of a round, committed
    | Crash(customer: nat, oracle: seq<bool>)    // the same, but the process dies before the commit
    | Redispatch(reminder: nat, accepted: bool)  // the owner re-sends a row, committed
    | CrashRedispatch(reminder: nat, accepted: bool)

  predicate Dies(a: Action) {
    a.Crash? || a.CrashRedispatch?
  }

  function Next(d: Desk, a: Action): Desk {
    match a
    case Owe(c, amount) => d.(owed := d.owed[c := amount])
    case NewCycle(c, cycle) => if FreshCycle(d.reminders, c, cycle) then d.(cycles := d.cycles[c := cycle]) else d
    case SetDay(day) => d.(day := day)
    case Reach(c, yes) => d.(reachable := if yes then d.reachable + {c} else d.reachable - {c})
    case ReachOwner(yes) => d.(ownerReachable := yes)
    case Process(c, oracle) => ProcessCustomer(d, c, oracle)
    case Redispatch(i, accepted) => Dispatch(d, i, accepted, false)
    case _ => d
  }

  /** What an action has done when it is about to commit; a crash forgets it. */
  function Attempted(d: Desk, a: Action): Desk {
    match a
    case Crash(c, oracle) => ProcessCustomer(d, c, oracle)
    case CrashRedispatch(i, accepted) => Dispatch(d, i, accepted, false)
    case _ => Next(d, a)
  }

  function Start(schedule: seq<Stage>, day: int): Desk {
    Desk(day, schedule, map[], map[], {}, false, [], [])
  }

  function Run(schedule: seq<Stage>, day: int, actions: seq<Action>): Desk {
    if actions == [] then Start(schedule, day)
    else Next(Run(schedule, day, actions[..|actions| - 1]), actions[|actions| - 1])
  }
}
