/** Commission earned and reversed over correction chains. Terms are snapshotted on the
    earning event; a chain earns once, and every later link posts one signed adjustment
    at the event's own terms. */
module Commission {
  import opened Outcomes
  import opened Calendar
  import opened Money
  import opened Ranges
  import opened Records
  import opened Payments

  datatype Basis = RecordedValue | BilledValue | CollectedValue

  /** The one term a plan's basis uses. */
  datatype Terms = Rated(basis: Basis, rate: int) | PerEvent(fixed: int)

  type Plan = Ranged<Terms>

  datatype Source = OfRecord(id: nat) | OfPayment(id: nat) | OfStatement(id: nat)

  datatype Event = Event(plan: nat, terms: Terms, source: Source, base: int, commission: int, occurredOn: Date)

  datatype Adjustment = Adjustment(event: nat, amount: int, source: Source)

  datatype Earnings = Earnings(plans: seq<Plan>, events: seq<Event>, adjustments: seq<Adjustment>)

  // ---- arithmetic --------------------------------------------------------------

  function CommissionFor(terms: Terms, base: int): int {
    match terms
    case PerEvent(fixed) => fixed
    case Rated(_, rate) => ApplyRateBp(base, rate)
  }

  function AdjustmentFor(terms: Terms, delta: int, stillCommissionable: bool): int {
    match terms
    case PerEvent(fixed) => if stillCommissionable then 0 else -fixed
    case Rated(_, rate) => ApplyRateBp(delta, rate)
  }

  // ---- lookups -----------------------------------------------------------------

  function FindEvent(events: seq<Event>, source: Source): (r: Option<nat>)
    ensures r.Some? ==> r.value < |events| && events[r.value].source == source
    ensures r.None? ==> forall k :: 0 <= k < |events| ==> events[k].source != source
  {
    if events == [] then None
    else if events[|events| - 1].source == source then Some(|events| - 1)
    else FindEvent(events[..|events| - 1], source)
  }

  predicate EarnedBy(event: Event, ids: set<nat>) {
    event.source.OfRecord? && event.source.id in ids
  }

  /** The one earning event covering a correction chain, if any. */
  function ChainEvent(events: seq<Event>, ids: set<nat>): (r: Option<nat>)
    ensures r.Some? ==> r.value < |events| && EarnedBy(events[r.value], ids)
    ensures r.None? ==> forall k :: 0 <= k < |events| ==> !EarnedBy(events[k], ids)
  {
    if events == [] then None
    else if EarnedBy(events[|events| - 1], ids) then Some(|events| - 1)
    else ChainEvent(events[..|events| - 1], ids)
  }

  function HasAdjustment(adjustments: seq<Adjustment>, source: Source): (r: bool)
    ensures r <==> exists a :: 0 <= a < |adjustments| && adjustments[a].source == source
  {
    if adjustments == [] then false
    else
      var last := |adjustments| - 1;
      adjustments[last].source == source || HasAdjustment(adjustments[..last], source)
  }

  // ---- writing -----------------------------------------------------------------

  function CreateEvent(t: Earnings, plan: nat, source: Source, base: int, occurredOn: Date): Earnings
    requires plan < |t.plans|
  {
    if FindEvent(t.events, source).Some? then t
    else
      var terms := t.plans[plan].terms;
      t.(events := t.events + [Event(plan, terms, source, base, CommissionFor(terms, base), occurredOn)])
  }

  function CreateAdjustment(t: Earnings, event: nat, amount: int, source: Source): Earnings {
    if HasAdjustment(t.adjustments, source) then t
    else t.(adjustments := t.adjustments + [Adjustment(event, amount, source)])
  }

  // ---- the hooks ---------------------------------------------------------------

  function OnServiceRecorded(t: Earnings, rs: seq<Record>, i: nat): Earnings
    requires i < |rs|
  {
    if rs[i].kind != Service then t
    else
      match Effective(t.plans, rs[i].date)
      case None => t
      case Some(plan) =>
        var terms := t.plans[plan].terms;
        if terms.PerEvent? || terms.basis == RecordedValue
        then CreateEvent(t, plan, OfRecord(i), rs[i].charge, rs[i].date)
        else t
  }

  function OnServiceCorrected(t: Earnings, rs: seq<Record>, original: nat, replacement: nat): Earnings
    requires original < |rs| && replacement < |rs|
  {
    match ChainEvent(t.events, Chain(rs, original))
    case None => if rs[replacement].kind == Service then OnServiceRecorded(t, rs, replacement) else t
    case Some(k) =>
      var amount := AdjustmentFor(t.events[k].terms, rs[replacement].charge - rs[original].charge,
                                  rs[replacement].kind == Service);
      CreateAdjustment(t, k, amount, OfRecord(original))
  }

  function OnServiceVoided(t: Earnings, rs: seq<Record>, i: nat): Earnings
    requires i < |rs|
  {
    match ChainEvent(t.events, Chain(rs, i))
    case None => t
    case Some(k) => CreateAdjustment(t, k, AdjustmentFor(t.events[k].terms, -rs[i].charge, false), OfRecord(i))
  }

  function OnPaymentRecorded(t: Earnings, ps: seq<Payment>, p: nat): Earnings
    requires p < |ps|
  {
    match Effective(t.plans, ps[p].receivedOn)
    case None => t
    case Some(plan) =>
      if t.plans[plan].terms.Rated? && t.plans[plan].terms.basis == CollectedValue
      then CreateEvent(t, plan, OfPayment(p), ps[p].amount, ps[p].receivedOn)
      else t
  }

  function OnPaymentVoided(t: Earnings, ps: seq<Payment>, p: nat): Earnings
    requires p < |ps|
  {
    match FindEvent(t.events, OfPayment(p))
    case None => t
    case Some(k) => CreateAdjustment(t, k, AdjustmentFor(t.events[k].terms, -ps[p].amount, false), OfPayment(p))
  }

  function OnStatementIssued(t: Earnings, statement: nat, billed: int, periodEnd: Date): Earnings {
    match Effective(t.plans, periodEnd)
    case None => t
    case Some(plan) =>
      if t.plans[plan].terms.Rated? && t.plans[plan].terms.basis == BilledValue
      then CreateEvent(t, plan, OfStatement(statement), billed, periodEnd)
      else t
  }

  // ---- net commission ----------------------------------------------------------

  function AdjustedBy(adjustments: seq<Adjustment>, event: nat): int {
    if adjustments == [] then 0
    else
      var last := adjustments[|adjustments| - 1];
      AdjustedBy(adjustments[..|adjustments| - 1], event) + if last.event == event then last.amount else 0
  }

  function AdjustmentCount(adjustments: seq<Adjustment>, event: nat): nat {
    if adjustments == [] then 0
    else
      var last := adjustments[|adjustments| - 1];
      AdjustmentCount(adjustments[..|adjustments| - 1], event) + if last.event == event then 1 else 0
  }

  function Net(t: Earnings, k: nat): int
    requires k < |t.events|
  {
    t.events[k].commission + AdjustedBy(t.adjustments, k)
  }

  /** What a record is still worth: its charge while ACTIVE, nothing once ended. */
  function AcceptedValue(r: Record): int {
    if r.status == Active then r.charge else 0
  }

  /** How many links from `e` onward have ended. */
  function EndedLinks(rs: seq<Record>, e: nat): nat
    requires e < |rs|
  {
    LinksAfter(rs, e) + if rs[Tail(rs, e)].status == Voided then 1 else 0
  }

  /** How many links from `e` onward ended in a SKIP or a void. */
  function Drops(rs: seq<Record>, e: nat): nat
    requires e < |rs|
  {
    SkipsAfter(rs, e) + if rs[Tail(rs, e)].status == Voided then 1 else 0
  }

  // ---- the invariant -----------------------------------------------------------

  /** One event earned on record `e`: where its net commission stands. */
  ghost predicate RecordEventHolds(rs: seq<Record>, t: Earnings, k: nat, e: nat)
    requires k < |t.events| && e < |rs|
  {
    var event, tail, count := t.events[k], rs[Tail(rs, e)], AdjustmentCount(t.adjustments, k);
    rs[e].kind == Service && event.base == rs[e].charge
    && count == EndedLinks(rs, e)
    && (match event.terms
        case PerEvent(fixed) => Net(t, k) == fixed * (1 - Drops(rs, e))
        case Rated(basis, rate) =>
          basis == RecordedValue
          && Abs(RATE_BP_SCALE * Net(t, k) - rate * AcceptedValue(tail)) <= 5000 * (count + 1)
          && (count == 0 ==> Net(t, k) == ApplyRateBp(rs[e].charge, rate))
          && (rs[e].status == Voided ==> Net(t, k) == 0))
  }

  ghost predicate EventHolds(rs: seq<Record>, ps: seq<Payment>, billed: seq<int>, t: Earnings, k: nat)
    requires k < |t.events|
  {
    var event := t.events[k];
    event.plan < |t.plans| && t.plans[event.plan].terms == event.terms
    && event.commission == CommissionFor(event.terms, event.base)
    && match event.source
       case OfRecord(e) => e < |rs| && RecordEventHolds(rs, t, k, e)
       case OfPayment(p) =>
         p < |ps| && event.base == ps[p].amount && event.terms.Rated? && event.terms.basis == CollectedValue
         && (if ps[p].status == Recorded then AdjustmentCount(t.adjustments, k) == 0
             else AdjustmentCount(t.adjustments, k) == 1 && Net(t, k) == 0)
       case OfStatement(s) =>
         s < |billed| && event.base == billed[s] && event.terms.Rated? && event.terms.basis == BilledValue
         && AdjustmentCount(t.adjustments, k) == 0
  }

  /** Every adjustment belongs to an ended document of the chain or payment its event
      covers. */
  ghost predicate AdjustmentHolds(rs: seq<Record>, ps: seq<Payment>, t: Earnings, a: nat)
    requires a < |t.adjustments|
  {
    var adjustment := t.adjustments[a];
    adjustment.event < |t.events|
    && match adjustment.source
       case OfRecord(i) => i < |rs| && rs[i].status != Active
       case OfPayment(p) => p < |ps| && ps[p].status == Reversed
       case OfStatement(_) => false
  }

  /** One earning event per document, and one per correction chain. */
  ghost predicate EarnsOnce(rs: seq<Record>, events: seq<Event>) {
    forall k, m :: 0 <= k < m < |events| ==>
      events[k].source != events[m].source
      && (events[k].source.OfRecord? && events[m].source.OfRecord?
          && events[k].source.id < |rs| && events[m].source.id < |rs| ==>
            Tail(rs, events[k].source.id) != Tail(rs, events[m].source.id))
  }

  ghost predicate DistinctAdjustments(adjustments: seq<Adjustment>) {
    forall a, b :: 0 <= a < b < |adjustments| ==> adjustments[a].source != adjustments[b].source
  }

  ghost predicate CommissionInv(rs: seq<Record>, ps: seq<Payment>, billed: seq<int>, t: Earnings) {
    Chained(rs)
    && (forall k :: 0 <= k < |t.events| ==> EventHolds(rs, ps, billed, t, k))
    && (forall a :: 0 <= a < |t.adjustments| ==> AdjustmentHolds(rs, ps, t, a))
    && EarnsOnce(rs, t.events)
    && DistinctAdjustments(t.adjustments)
  }

  // ---- each step keeps it ------------------------------------------------------

  lemma {:induction false} UnadjustedEvent(adjustments: seq<Adjustment>, k: nat)
    requires forall a :: 0 <= a < |adjustments| ==> adjustments[a].event != k
    ensures AdjustedBy(adjustments, k) == 0 && AdjustmentCount(adjustments, k) == 0
  {
    if adjustments != [] {
      UnadjustedEvent(adjustments[..|adjustments| - 1], k);
    }
  }

  lemma {:induction false} AppendedAdjustment(t: Earnings, event: nat, amount: int, source: Source, k: nat)
    requires !HasAdjustment(t.adjustments, source)
    ensures var t' := CreateAdjustment(t, event, amount, source);
            t'.events == t.events && t'.plans == t.plans
            && t'.adjustments == t.adjustments + [Adjustment(event, amount, source)]
            && AdjustedBy(t'.adjustments, k) == AdjustedBy(t.adjustments, k) + (if k == event then amount else 0)
            && AdjustmentCount(t'.adjustments, k) == AdjustmentCount(t.adjustments, k) + (if k == event then 1 else 0)
  {
    var t' := CreateAdjustment(t, event, amount, source);
    assert t'.adjustments[..|t.adjustments|] == t.adjustments;
  }

  lemma {:induction false} FirstEventHolds(rs: seq<Record>, t: Earnings, i: nat)
    requires i < |rs| && rs[i].status == Active && Next(rs, i).None? && OnServiceRecorded(t, rs, i) != t
    requires forall a :: 0 <= a < |t.adjustments| ==> t.adjustments[a].event != |t.events|
    ensures RecordEventHolds(rs, OnServiceRecorded(t, rs, i), |t.events|, i)
  {
    var n, t' := |t.events|, OnServiceRecorded(t, rs, i);
    UnadjustedEvent(t.adjustments, n);
    assert Tail(rs, i) == i && EndedLinks(rs, i) == 0 && Drops(rs, i) == 0;
    if t'.events[n].terms.Rated? {
      RateError(rs[i].charge, t'.events[n].terms.rate);
    }
  }

  /** A new event on a record that no event's chain reaches yet. */
  lemma {:induction false} RecordEventStarts(rs: seq<Record>, ps: seq<Payment>, billed: seq<int>, t: Earnings, i: nat)
    requires CommissionInv(rs, ps, billed, t) && i < |rs| && rs[i].status == Active && Next(rs, i).None?
    requires forall k :: 0 <= k < |t.events| ==> !EarnedBy(t.events[k], Chain(rs, i))
    ensures CommissionInv(rs, ps, billed, OnServiceRecorded(t, rs, i))
    ensures OnServiceRecorded(t, rs, i).plans == t.plans
  {
    var t' := OnServiceRecorded(t, rs, i);
    if t' != t {
      var n := |t.events|;
      AdjustmentsStand(rs, ps, t, t', n);
      FirstEventHolds(rs, t, i);
      OlderEventsHold(rs, ps, billed, t, t', n);
      NewTailIsOwn(rs, t.events, i, t'.events[n]);
      assert t'.events == t.events + [t'.events[n]];
    }
  }

  lemma {:induction false} OlderEventsHold(
      rs: seq<Record>, ps: seq<Payment>, billed: seq<int>, t: Earnings, t': Earnings, n: nat)
    requires n == |t.events| && |t'.events| == n + 1 && t'.events[..n] == t.events
    requires t'.adjustments == t.adjustments && t'.plans == t.plans
    requires forall k :: 0 <= k < n ==> EventHolds(rs, ps, billed, t, k)
    ensures forall k :: 0 <= k < n ==> EventHolds(rs, ps, billed, t', k)
  {
    forall k | 0 <= k < n ensures EventHolds(rs, ps, billed, t', k) {
      assert EventHolds(rs, ps, billed, t, k);
      assert t'.events[..n][k] == t'.events[k];
    }
  }

  /** A record whose chain no event reaches can earn beside the events there are. */
  lemma {:induction false} NewTailIsOwn(rs: seq<Record>, events: seq<Event>, i: nat, e: Event)
    requires Chained(rs) && EarnsOnce(rs, events) && i < |rs| && rs[i].status == Active && Next(rs, i).None?
    requires forall k :: 0 <= k < |events| ==> !EarnedBy(events[k], Chain(rs, i))
    requires e.source == OfRecord(i)
    ensures EarnsOnce(rs, events + [e])
  {
    assert Tail(rs, i) == i;
    forall k | 0 <= k < |events|
      ensures events[k].source.OfRecord? && events[k].source.id < |rs| ==> Tail(rs, events[k].source.id) != i
    {
      EarnedElsewhere(rs, i, events[k]);
    }
  }

  /** A new event leaves the adjustments of the older ones as they are. */
  lemma {:induction false} AdjustmentsStand(rs: seq<Record>, ps: seq<Payment>, t: Earnings, t': Earnings, n: nat)
    requires n == |t.events| && |t'.events| == n + 1 && t'.events[..n] == t.events && t'.adjustments == t.adjustments
    requires forall a :: 0 <= a < |t.adjustments| ==> AdjustmentHolds(rs, ps, t, a)
    ensures forall a :: 0 <= a < |t.adjustments| ==> t.adjustments[a].event != n && AdjustmentHolds(rs, ps, t', a)
  {
    forall a | 0 <= a < |t.adjustments| ensures t.adjustments[a].event != n && AdjustmentHolds(rs, ps, t', a) {
      assert AdjustmentHolds(rs, ps, t, a);
      assert t'.events[..n][t.adjustments[a].event] == t'.events[t.adjustments[a].event];
    }
  }

  /** An event that a chain's walk does not find was not earned by that chain. */
  lemma {:induction false} EarnedElsewhere(rs: seq<Record>, i: nat, e: Event)
    requires Chained(rs) && i < |rs| && rs[i].status == Active && !EarnedBy(e, Chain(rs, i))
    ensures e.source.OfRecord? && e.source.id < |rs| ==> Tail(rs, e.source.id) != i
  {
    if e.source.OfRecord? && e.source.id < |rs| {
      ChainIsTailClass(rs, i, e.source.id);
    }
  }

  lemma {:induction false} EventStandsBesideNew(
      rs: seq<Record>, ps: seq<Payment>, billed: seq<int>, t: Earnings, r: Record, k: nat)
    requires Chained(rs) && k < |t.events| && EventHolds(rs, ps, billed, t, k)
    requires r.status == Active && r.corrects.None? && r.supersededBy.None?
    ensures EventHolds(rs + [r], ps, billed, t, k) && !EarnedBy(t.events[k], Chain(rs + [r], |rs|))
  {
    if t.events[k].source.OfRecord? {
      AppendKeepsChains(rs, r, t.events[k].source.id);
    }
  }

  lemma {:induction false} AppendKeepsEarnsOnce(
      rs: seq<Record>, ps: seq<Payment>, billed: seq<int>, t: Earnings, r: Record)
    requires Chained(rs) && EarnsOnce(rs, t.events)
    requires forall k :: 0 <= k < |t.events| ==> EventHolds(rs, ps, billed, t, k)
    requires r.status == Active && r.corrects.None? && r.supersededBy.None?
    ensures EarnsOnce(rs + [r], t.events)
  {
    var rs' := rs + [r];
    forall k, m | 0 <= k < m < |t.events| && t.events[k].source.OfRecord? && t.events[m].source.OfRecord?
                  && t.events[k].source.id < |rs'| && t.events[m].source.id < |rs'|
      ensures Tail(rs', t.events[k].source.id) != Tail(rs', t.events[m].source.id)
    {
      assert EventHolds(rs, ps, billed, t, k) && EventHolds(rs, ps, billed, t, m);
      AppendKeepsChains(rs, r, t.events[k].source.id);
      AppendKeepsChains(rs, r, t.events[m].source.id);
    }
  }

  /** A freshly recorded row: the rest of the state is untouched and the row may earn. */
  lemma {:induction false} RecordedKeeps(rs: seq<Record>, ps: seq<Payment>, billed: seq<int>, t: Earnings, r: Record)
    requires CommissionInv(rs, ps, billed, t)
    requires r.status == Active && r.corrects.None? && r.supersededBy.None?
    ensures CommissionInv(rs + [r], ps, billed, OnServiceRecorded(t, rs + [r], |rs|))
    ensures OnServiceRecorded(t, rs + [r], |rs|).plans == t.plans
  {
    var rs' := rs + [r];
    AppendChained(rs, r);
    forall k | 0 <= k < |t.events|
      ensures EventHolds(rs', ps, billed, t, k) && !EarnedBy(t.events[k], Chain(rs', |rs|))
    {
      EventStandsBesideNew(rs, ps, billed, t, r, k);
    }
    AppendKeepsEarnsOnce(rs, ps, billed, t, r);
    forall a | 0 <= a < |t.adjustments| ensures AdjustmentHolds(rs', ps, t, a) {
      assert AdjustmentHolds(rs, ps, t, a);
    }
    RecordEventStarts(rs', ps, billed, t, |rs|);
  }

  lemma {:induction false} AppendChained(rs: seq<Record>, r: Record)
    requires Chained(rs) && r.status == Active && r.corrects.None? && r.supersededBy.None?
    ensures Chained(rs + [r])
  {
    if rs != [] {
      AppendKeepsChains(rs, r, 0);
    }
  }

  /** One more adjustment on event `k`: every other event is untouched. */
  lemma {:induction false} AdjustmentKeeps(
      rs: seq<Record>, ps: seq<Payment>, billed: seq<int>, t: Earnings, k: nat, amount: int, source: Source)
    requires Chained(rs) && EarnsOnce(rs, t.events) && DistinctAdjustments(t.adjustments) && k < |t.events|
    requires forall a :: 0 <= a < |t.adjustments| ==> AdjustmentHolds(rs, ps, t, a) && t.adjustments[a].source != source
    requires forall m :: 0 <= m < |t.events| && m != k ==> EventHolds(rs, ps, billed, t, m)
    requires match source
             case OfRecord(i) => i < |rs| && rs[i].status != Active
             case OfPayment(p) => p < |ps| && ps[p].status == Reversed
             case OfStatement(_) => false
    requires EventHolds(rs, ps, billed, CreateAdjustment(t, k, amount, source), k)
    ensures CommissionInv(rs, ps, billed, CreateAdjustment(t, k, amount, source))
  {
    var t' := CreateAdjustment(t, k, amount, source);
    AppendedAdjustment(t, k, amount, source, k);
    forall m | 0 <= m < |t'.events| ensures EventHolds(rs, ps, billed, t', m) {
      if m != k {
        OtherEventHolds(rs, ps, billed, t, k, amount, source, m);
      }
    }
    AppendedAdjustmentHolds(rs, ps, t, t', Adjustment(k, amount, source));
  }

  lemma {:induction false} AppendedAdjustmentHolds(
      rs: seq<Record>, ps: seq<Payment>, t: Earnings, t': Earnings, adjustment: Adjustment)
    requires t'.events == t.events && t'.adjustments == t.adjustments + [adjustment]
    requires DistinctAdjustments(t.adjustments) && adjustment.event < |t.events|
    requires forall a :: 0 <= a < |t.adjustments| ==>
               AdjustmentHolds(rs, ps, t, a) && t.adjustments[a].source != adjustment.source
    requires match adjustment.source
             case OfRecord(i) => i < |rs| && rs[i].status != Active
             case OfPayment(p) => p < |ps| && ps[p].status == Reversed
             case OfStatement(_) => false
    ensures DistinctAdjustments(t'.adjustments)
    ensures forall a :: 0 <= a < |t'.adjustments| ==> AdjustmentHolds(rs, ps, t', a)
  {
    forall a | 0 <= a < |t'.adjustments| ensures AdjustmentHolds(rs, ps, t', a) {
      if a < |t.adjustments| {
        assert AdjustmentHolds(rs, ps, t, a);
      }
    }
  }

  lemma {:induction false} OtherEventHolds(
      rs: seq<Record>, ps: seq<Payment>, billed: seq<int>, t: Earnings, k: nat, amount: int, source: Source, m: nat)
    requires k < |t.events| && m < |t.events| && m != k && EventHolds(rs, ps, billed, t, m)
    requires !HasAdjustment(t.adjustments, source)
    ensures EventHolds(rs, ps, billed, CreateAdjustment(t, k, amount, source), m)
  {
    AppendedAdjustment(t, k, amount, source, m);
  }

  /** One more rounding widens the error by at most half a unit. */
  lemma {:induction false} BoundStep(net: int, amount: int, rate: int, before: int, after: int, count: nat)
    requires Abs(RATE_BP_SCALE * net - rate * before) <= 5000 * (count + 1)
    requires amount == ApplyRateBp(after - before, rate)
    ensures Abs(RATE_BP_SCALE * (net + amount) - rate * after) <= 5000 * (count + 2)
  {
    RateError(after - before, rate);
    assert rate * (after - before) == rate * after - rate * before;
  }

  /** When a link of the chain ends and its event is adjusted by the change in accepted
      value, the event's invariant moves along. */
  lemma {:induction false} RecordEventMoves(
      rs: seq<Record>, rs': seq<Record>, t: Earnings, t': Earnings, k: nat, e: nat, amount: int, drop: nat)
    requires k < |t.events| && e < |rs| && e < |rs'| && RecordEventHolds(rs, t, k, e)
    requires t'.events == t.events && AdjustedBy(t'.adjustments, k) == AdjustedBy(t.adjustments, k) + amount
    requires AdjustmentCount(t'.adjustments, k) == AdjustmentCount(t.adjustments, k) + 1
    requires rs'[e].kind == rs[e].kind && rs'[e].charge == rs[e].charge
    requires EndedLinks(rs', e) == EndedLinks(rs, e) + 1 && Drops(rs', e) == Drops(rs, e) + drop && drop <= 1
    requires amount == AdjustmentFor(t.events[k].terms,
                                     AcceptedValue(rs'[Tail(rs', e)]) - AcceptedValue(rs[Tail(rs, e)]), drop == 0)
    requires rs'[e].status == Voided ==> EndedLinks(rs, e) == 0
                                         && AcceptedValue(rs'[Tail(rs', e)]) == 0
                                         && AcceptedValue(rs[Tail(rs, e)]) == rs[e].charge
    ensures RecordEventHolds(rs', t', k, e)
  {
    match t.events[k].terms
    case PerEvent(fixed) =>
      assert fixed * (1 - Drops(rs, e)) - fixed == fixed * (1 - (Drops(rs, e) + 1));
    case Rated(_, rate) =>
      BoundStep(Net(t, k), amount, rate, AcceptedValue(rs[Tail(rs, e)]), AcceptedValue(rs'[Tail(rs', e)]),
                AdjustmentCount(t.adjustments, k));
      RateReverses(rs[e].charge, rate);
  }

  lemma {:induction false} SameChain(rs: seq<Record>, rs': seq<Record>, i: nat)
    requires i < |rs| <= |rs'| && forall x :: 0 <= x < |rs| ==> rs'[x].corrects == rs[x].corrects
    ensures Chain(rs', i) == Chain(rs, i)
  {
    if rs[i].corrects.Some? && rs[i].corrects.value < i {
      SameChain(rs, rs', rs[i].corrects.value);
    }
  }

  lemma {:induction false} VoidedIsTail(rs: seq<Record>, e: nat)
    requires Chained(rs) && e < |rs| && rs[e].status == Voided
    ensures Tail(rs, e) == e
  {
  }

  /** Where a correction of `i` moves the chain of the record an event was earned on. */
  lemma {:induction false} CorrectionMovesEvent(
      rs: seq<Record>, ps: seq<Payment>, billed: seq<int>, t: Earnings, i: nat, version: nat, r: Record, k: nat)
    requires CommissionInv(rs, ps, billed, t) && i < |rs| && rs[i].status == Active && k < |t.events|
    requires r.corrects == Some(i) && r.supersededBy.None? && r.status == Active && t.events[k].source.OfRecord?
    ensures var rs', e := Supersede(rs, i, version, r), t.events[k].source.id;
            e < |rs| && (EarnedBy(t.events[k], Chain(rs', i)) <==> Tail(rs, e) == i)
            && Tail(rs', e) == (if Tail(rs, e) == i then |rs| else Tail(rs, e))
            && (Tail(rs, e) != i ==> EventHolds(rs', ps, billed, t, k))
  {
    var rs', e := Supersede(rs, i, version, r), t.events[k].source.id;
    assert EventHolds(rs, ps, billed, t, k);
    SameChain(rs, rs', i);
    ChainIsTailClass(rs, i, e);
    SupersedeExtendsChain(rs, i, version, r, e);
    if Tail(rs, e) != i {
      assert EndedLinks(rs', e) == EndedLinks(rs, e) && Drops(rs', e) == Drops(rs, e);
    }
  }

  /** The correction's adjustment keeps the chain's event in order. */
  lemma {:induction false} CorrectionAdjusts(
      rs: seq<Record>, ps: seq<Payment>, billed: seq<int>, t: Earnings, i: nat, version: nat, r: Record, k: nat)
    requires CommissionInv(rs, ps, billed, t) && i < |rs| && rs[i].status == Active && k < |t.events|
    requires r.corrects == Some(i) && r.supersededBy.None? && r.status == Active
    requires t.events[k].source.OfRecord? && t.events[k].source.id < |rs| && Tail(rs, t.events[k].source.id) == i
    requires !HasAdjustment(t.adjustments, OfRecord(i))
    ensures var amount := AdjustmentFor(t.events[k].terms, r.charge - rs[i].charge, r.kind == Service);
            EventHolds(Supersede(rs, i, version, r), ps, billed, CreateAdjustment(t, k, amount, OfRecord(i)), k)
  {
    var rs' := Supersede(rs, i, version, r);
    var e := t.events[k].source.id;
    var amount := AdjustmentFor(t.events[k].terms, r.charge - rs[i].charge, r.kind == Service);
    assert EventHolds(rs, ps, billed, t, k);
    SupersedeExtendsChain(rs, i, version, r, e);
    AppendedAdjustment(t, k, amount, OfRecord(i), k);
    if rs[e].status == Voided {
      VoidedIsTail(rs, e);
    }
    var drop := if r.kind == Skip then 1 else 0;
    RecordEventMoves(rs, rs', t, CreateAdjustment(t, k, amount, OfRecord(i)), k, e, amount, drop);
  }

  /** A corrected row: an earning chain posts the difference at its own terms, a chain
      that never earned may earn at the replacement. */
  lemma {:induction false} CorrectedKeeps(
      rs: seq<Record>, ps: seq<Payment>, billed: seq<int>, t: Earnings, i: nat, version: nat, r: Record)
    requires CommissionInv(rs, ps, billed, t) && i < |rs| && rs[i].status == Active
    requires r.corrects == Some(i) && r.supersededBy.None? && r.status == Active
    ensures var rs' := Supersede(rs, i, version, r);
            CommissionInv(rs', ps, billed, OnServiceCorrected(t, rs', i, |rs|))
            && OnServiceCorrected(t, rs', i, |rs|).plans == t.plans
  {
    var rs' := Supersede(rs, i, version, r);
    SupersedeKeepsChained(rs, i, version, r);
    CorrectionKeepsEarnsOnce(rs, ps, billed, t, i, version, r);
    EndedDocumentUnadjusted(rs, rs', ps, t, i);
    match ChainEvent(t.events, Chain(rs', i))
    case None => UnearnedCorrectionKeeps(rs, ps, billed, t, i, version, r, rs');
    case Some(k) => EarnedCorrectionKeeps(rs, ps, billed, t, i, version, r, k, rs');
  }

  lemma {:induction false} UnearnedCorrectionKeeps(
      rs: seq<Record>, ps: seq<Payment>, billed: seq<int>, t: Earnings, i: nat, version: nat, r: Record,
      rs': seq<Record>)
    requires CommissionInv(rs, ps, billed, t) && i < |rs| && rs[i].status == Active
    requires r.corrects == Some(i) && r.supersededBy.None? && r.status == Active
    requires rs' == Supersede(rs, i, version, r) && Chained(rs') && EarnsOnce(rs', t.events)
    requires ChainEvent(t.events, Chain(rs', i)).None?
    requires forall a :: 0 <= a < |t.adjustments| ==> AdjustmentHolds(rs', ps, t, a)
    ensures CommissionInv(rs', ps, billed, OnServiceCorrected(t, rs', i, |rs|))
    ensures OnServiceCorrected(t, rs', i, |rs|).plans == t.plans
  {
    CorrectionKeepsOthers(rs, ps, billed, t, i, version, r, |t.events|);
    NoEventReachesReplacement(rs, ps, billed, t, i, version, r);
    RecordEventStarts(rs', ps, billed, t, |rs|);
  }

  lemma {:induction false} EarnedCorrectionKeeps(
      rs: seq<Record>, ps: seq<Payment>, billed: seq<int>, t: Earnings, i: nat, version: nat, r: Record, k: nat,
      rs': seq<Record>)
    requires CommissionInv(rs, ps, billed, t) && i < |rs| && rs[i].status == Active
    requires r.corrects == Some(i) && r.supersededBy.None? && r.status == Active
    requires rs' == Supersede(rs, i, version, r) && Chained(rs') && EarnsOnce(rs', t.events)
    requires k < |t.events| && EarnedBy(t.events[k], Chain(rs', i))
    requires forall a :: 0 <= a < |t.adjustments| ==>
               AdjustmentHolds(rs', ps, t, a) && t.adjustments[a].source != OfRecord(i)
    requires !HasAdjustment(t.adjustments, OfRecord(i))
    requires ChainEvent(t.events, Chain(rs', i)) == Some(k)
    ensures CommissionInv(rs', ps, billed, OnServiceCorrected(t, rs', i, |rs|))
    ensures OnServiceCorrected(t, rs', i, |rs|).plans == t.plans
  {
    CorrectionKeepsOthers(rs, ps, billed, t, i, version, r, k);
    CorrectionMovesEvent(rs, ps, billed, t, i, version, r, k);
    CorrectionAdjusts(rs, ps, billed, t, i, version, r, k);
    AdjustmentKeeps(rs', ps, billed, t, k,
                    AdjustmentFor(t.events[k].terms, r.charge - rs[i].charge, r.kind == Service), OfRecord(i));
  }

  /** Every event but the corrected chain's own (`k`, when there is one) stands. */
  lemma {:induction false} CorrectionKeepsOthers(
      rs: seq<Record>, ps: seq<Payment>, billed: seq<int>, t: Earnings, i: nat, version: nat, r: Record, k: nat)
    requires CommissionInv(rs, ps, billed, t) && i < |rs| && rs[i].status == Active
    requires r.corrects == Some(i) && r.supersededBy.None? && r.status == Active
    requires if k < |t.events| then EarnedBy(t.events[k], Chain(Supersede(rs, i, version, r), i))
             else forall m :: 0 <= m < |t.events| ==> !EarnedBy(t.events[m], Chain(Supersede(rs, i, version, r), i))
    ensures forall m :: 0 <= m < |t.events| && m != k ==> EventHolds(Supersede(rs, i, version, r), ps, billed, t, m)
  {
    var rs' := Supersede(rs, i, version, r);
    if k < |t.events| {
      CorrectionMovesEvent(rs, ps, billed, t, i, version, r, k);
    }
    forall m | 0 <= m < |t.events| && m != k ensures EventHolds(rs', ps, billed, t, m) {
      assert EventHolds(rs, ps, billed, t, m);
      if t.events[m].source.OfRecord? {
        CorrectionMovesEvent(rs, ps, billed, t, i, version, r, m);
      }
    }
  }

  lemma {:induction false} CorrectionKeepsEarnsOnce(
      rs: seq<Record>, ps: seq<Payment>, billed: seq<int>, t: Earnings, i: nat, version: nat, r: Record)
    requires CommissionInv(rs, ps, billed, t) && i < |rs| && rs[i].status == Active
    requires r.corrects == Some(i) && r.supersededBy.None? && r.status == Active
    ensures EarnsOnce(Supersede(rs, i, version, r), t.events)
  {
    var rs' := Supersede(rs, i, version, r);
    forall k, m | 0 <= k < m < |t.events| && t.events[k].source.OfRecord? && t.events[m].source.OfRecord?
      ensures t.events[k].source.id < |rs| && t.events[m].source.id < |rs|
      ensures Tail(rs', t.events[k].source.id) != Tail(rs', t.events[m].source.id)
    {
      CorrectionMovesEvent(rs, ps, billed, t, i, version, r, k);
      CorrectionMovesEvent(rs, ps, billed, t, i, version, r, m);
    }
  }

  /** A record that was ACTIVE carries no adjustment yet, and the others stay in order
      when it ends. */
  lemma {:induction false} EndedDocumentUnadjusted(
      rs: seq<Record>, rs': seq<Record>, ps: seq<Payment>, t: Earnings, i: nat)
    requires forall a :: 0 <= a < |t.adjustments| ==> AdjustmentHolds(rs, ps, t, a)
    requires i < |rs| <= |rs'| && rs[i].status == Active
    requires forall x :: 0 <= x < |rs| && x != i ==> rs'[x].status == rs[x].status
    ensures forall a :: 0 <= a < |t.adjustments| ==>
              AdjustmentHolds(rs', ps, t, a) && t.adjustments[a].source != OfRecord(i)
  {
    forall a | 0 <= a < |t.adjustments|
      ensures AdjustmentHolds(rs', ps, t, a) && t.adjustments[a].source != OfRecord(i)
    {
      assert AdjustmentHolds(rs, ps, t, a);
    }
  }

  lemma {:induction false} NoEventReachesReplacement(
      rs: seq<Record>, ps: seq<Payment>, billed: seq<int>, t: Earnings, i: nat, version: nat, r: Record)
    requires CommissionInv(rs, ps, billed, t) && i < |rs| && rs[i].status == Active
    requires r.corrects == Some(i) && r.supersededBy.None? && r.status == Active
    requires ChainEvent(t.events, Chain(Supersede(rs, i, version, r), i)).None?
    ensures forall k :: 0 <= k < |t.events| ==> !EarnedBy(t.events[k], Chain(Supersede(rs, i, version, r), |rs|))
  {
    var rs' := Supersede(rs, i, version, r);
    assert Chain(rs', |rs|) == {|rs|} + Chain(rs', i);
    forall k | 0 <= k < |t.events| ensures !EarnedBy(t.events[k], Chain(rs', |rs|)) {
      assert EventHolds(rs, ps, billed, t, k);
    }
  }

  lemma {:induction false} VoidMovesEvent(
      rs: seq<Record>, ps: seq<Payment>, billed: seq<int>, t: Earnings, i: nat, version: nat, k: nat)
    requires CommissionInv(rs, ps, billed, t) && i < |rs| && rs[i].status == Active && k < |t.events|
    requires t.events[k].source.OfRecord?
    ensures var rs', e := VoidRecord(rs, i, version), t.events[k].source.id;
            e < |rs| && (EarnedBy(t.events[k], Chain(rs', i)) <==> Tail(rs, e) == i)
            && Tail(rs', e) == Tail(rs, e)
            && (Tail(rs, e) != i ==> EventHolds(rs', ps, billed, t, k))
  {
    var rs', e := VoidRecord(rs, i, version), t.events[k].source.id;
    assert EventHolds(rs, ps, billed, t, k);
    SameChain(rs, rs', i);
    ChainIsTailClass(rs, i, e);
    VoidKeepsChains(rs, i, version, e);
    if Tail(rs, e) != i {
      assert EndedLinks(rs', e) == EndedLinks(rs, e) && Drops(rs', e) == Drops(rs, e);
    }
  }

  lemma {:induction false} VoidAdjusts(
      rs: seq<Record>, ps: seq<Payment>, billed: seq<int>, t: Earnings, i: nat, version: nat, k: nat)
    requires CommissionInv(rs, ps, billed, t) && i < |rs| && rs[i].status == Active && k < |t.events|
    requires t.events[k].source.OfRecord? && t.events[k].source.id < |rs| && Tail(rs, t.events[k].source.id) == i
    requires !HasAdjustment(t.adjustments, OfRecord(i))
    ensures EventHolds(VoidRecord(rs, i, version), ps, billed,
                       CreateAdjustment(t, k, AdjustmentFor(t.events[k].terms, -rs[i].charge, false), OfRecord(i)), k)
  {
    var rs', e := VoidRecord(rs, i, version), t.events[k].source.id;
    var amount := AdjustmentFor(t.events[k].terms, -rs[i].charge, false);
    assert EventHolds(rs, ps, billed, t, k);
    VoidKeepsChains(rs, i, version, e);
    AppendedAdjustment(t, k, amount, OfRecord(i), k);
    if rs'[e].status == Voided {
      VoidedIsTail(rs', e);
    }
    RecordEventMoves(rs, rs', t, CreateAdjustment(t, k, amount, OfRecord(i)), k, e, amount, 1);
  }

  /** A voided row: its chain's event gives back the accepted value at its own terms. */
  lemma {:induction false} VoidedKeeps(
      rs: seq<Record>, ps: seq<Payment>, billed: seq<int>, t: Earnings, i: nat, version: nat)
    requires CommissionInv(rs, ps, billed, t) && i < |rs| && rs[i].status == Active
    ensures var rs' := VoidRecord(rs, i, version);
            CommissionInv(rs', ps, billed, OnServiceVoided(t, rs', i))
            && OnServiceVoided(t, rs', i).plans == t.plans
  {
    var rs' := VoidRecord(rs, i, version);
    var earned := ChainEvent(t.events, Chain(rs', i));
    assert Chained(rs') by { VoidKeepsChains(rs, i, version, i); }
    VoidKeepsEarnsOnce(rs, ps, billed, t, i, version);
    EndedDocumentUnadjusted(rs, rs', ps, t, i);
    if earned.None? {
      VoidKeepsOthers(rs, ps, billed, t, i, version, |t.events|);
    } else {
      var k := earned.value;
      VoidKeepsOthers(rs, ps, billed, t, i, version, k);
      VoidGivesBack(rs, ps, billed, t, i, version, k);
      AdjustmentKeeps(rs', ps, billed, t, k, AdjustmentFor(t.events[k].terms, -rs[i].charge, false), OfRecord(i));
    }
  }

  lemma {:induction false} VoidGivesBack(
      rs: seq<Record>, ps: seq<Payment>, billed: seq<int>, t: Earnings, i: nat, version: nat, k: nat)
    requires CommissionInv(rs, ps, billed, t) && i < |rs| && rs[i].status == Active && k < |t.events|
    requires EarnedBy(t.events[k], Chain(VoidRecord(rs, i, version), i)) && !HasAdjustment(t.adjustments, OfRecord(i))
    ensures EventHolds(VoidRecord(rs, i, version), ps, billed,
                       CreateAdjustment(t, k, AdjustmentFor(t.events[k].terms, -rs[i].charge, false), OfRecord(i)), k)
  {
    VoidMovesEvent(rs, ps, billed, t, i, version, k);
    VoidAdjusts(rs, ps, billed, t, i, version, k);
  }

  lemma {:induction false} VoidKeepsOthers(
      rs: seq<Record>, ps: seq<Payment>, billed: seq<int>, t: Earnings, i: nat, version: nat, k: nat)
    requires CommissionInv(rs, ps, billed, t) && i < |rs| && rs[i].status == Active
    requires if k < |t.events| then EarnedBy(t.events[k], Chain(VoidRecord(rs, i, version), i))
             else forall m :: 0 <= m < |t.events| ==> !EarnedBy(t.events[m], Chain(VoidRecord(rs, i, version), i))
    ensures forall m :: 0 <= m < |t.events| && m != k ==> EventHolds(VoidRecord(rs, i, version), ps, billed, t, m)
  {
    var rs' := VoidRecord(rs, i, version);
    if k < |t.events| {
      VoidMovesEvent(rs, ps, billed, t, i, version, k);
    }
    forall m | 0 <= m < |t.events| && m != k ensures EventHolds(rs', ps, billed, t, m) {
      assert EventHolds(rs, ps, billed, t, m);
      if t.events[m].source.OfRecord? {
        VoidMovesEvent(rs, ps, billed, t, i, version, m);
      }
    }
  }

  lemma {:induction false} VoidKeepsEarnsOnce(
      rs: seq<Record>, ps: seq<Payment>, billed: seq<int>, t: Earnings, i: nat, version: nat)
    requires CommissionInv(rs, ps, billed, t) && i < |rs| && rs[i].status == Active
    ensures EarnsOnce(VoidRecord(rs, i, version), t.events)
  {
    var rs' := VoidRecord(rs, i, version);
    forall k, m | 0 <= k < m < |t.events| && t.events[k].source.OfRecord? && t.events[m].source.OfRecord?
      ensures t.events[k].source.id < |rs| && t.events[m].source.id < |rs|
      ensures Tail(rs', t.events[k].source.id) != Tail(rs', t.events[m].source.id)
    {
      VoidMovesEvent(rs, ps, billed, t, i, version, k);
      VoidMovesEvent(rs, ps, billed, t, i, version, m);
    }
  }

  // ---- payments and statements -------------------------------------------------

  lemma {:induction false} PaymentRecordedKeeps(
      rs: seq<Record>, ps: seq<Payment>, billed: seq<int>, t: Earnings, p: Payment)
    requires CommissionInv(rs, ps, billed, t) && p.status == Recorded
    ensures CommissionInv(rs, ps + [p], billed, OnPaymentRecorded(t, ps + [p], |ps|))
    ensures OnPaymentRecorded(t, ps + [p], |ps|).plans == t.plans
  {
    var ps' := ps + [p];
    var t' := OnPaymentRecorded(t, ps', |ps|);
    forall k | 0 <= k < |t.events| ensures EventHolds(rs, ps', billed, t, k) && t.events[k].source != OfPayment(|ps|) {
      assert EventHolds(rs, ps, billed, t, k);
    }
    forall a | 0 <= a < |t.adjustments| ensures AdjustmentHolds(rs, ps', t, a) && t.adjustments[a].event < |t.events| {
      assert AdjustmentHolds(rs, ps, t, a);
    }
    if t' != t {
      NewEventKeeps(rs, ps', billed, t, t');
    }
  }

  /** Appending an event of a document no earlier event cites. */
  lemma {:induction false} NewEventKeeps(
      rs: seq<Record>, ps: seq<Payment>, billed: seq<int>, t: Earnings, t': Earnings)
    requires CommissionInv(rs, ps, billed, t)
    requires t'.plans == t.plans && t'.adjustments == t.adjustments && |t'.events| == |t.events| + 1
    requires t'.events[..|t.events|] == t.events && !t'.events[|t.events|].source.OfRecord?
    requires forall k :: 0 <= k < |t.events| ==> t.events[k].source != t'.events[|t.events|].source
    requires AdjustedBy(t.adjustments, |t.events|) == 0 && AdjustmentCount(t.adjustments, |t.events|) == 0
             ==> EventHolds(rs, ps, billed, t', |t.events|)
    ensures CommissionInv(rs, ps, billed, t')
  {
    forall a | 0 <= a < |t.adjustments|
      ensures AdjustmentHolds(rs, ps, t', a) && t.adjustments[a].event != |t.events|
    {
      assert AdjustmentHolds(rs, ps, t, a);
    }
    UnadjustedEvent(t.adjustments, |t.events|);
    forall k | 0 <= k < |t'.events| ensures EventHolds(rs, ps, billed, t', k) {
      if k < |t.events| {
        assert t'.events[k] == t'.events[..|t.events|][k] == t.events[k];
        assert EventHolds(rs, ps, billed, t, k);
      }
    }
    assert forall k :: 0 <= k < |t.events| ==> t'.events[k] == t'.events[..|t.events|][k];
  }

  /** Everything but the event of the reversed payment stands. */
  lemma {:induction false} ReversalKeepsOthers(
      rs: seq<Record>, ps: seq<Payment>, billed: seq<int>, t: Earnings, p: nat, version: nat)
    requires CommissionInv(rs, ps, billed, t) && p < |ps| && ps[p].status == Recorded
    ensures forall a :: 0 <= a < |t.adjustments| ==>
              AdjustmentHolds(rs, Reverse(ps, p, version), t, a) && t.adjustments[a].source != OfPayment(p)
    ensures forall k :: 0 <= k < |t.events| && t.events[k].source != OfPayment(p) ==>
              EventHolds(rs, Reverse(ps, p, version), billed, t, k)
  {
    forall a | 0 <= a < |t.adjustments|
      ensures AdjustmentHolds(rs, Reverse(ps, p, version), t, a) && t.adjustments[a].source != OfPayment(p)
    {
      assert AdjustmentHolds(rs, ps, t, a);
    }
    forall k | 0 <= k < |t.events| && t.events[k].source != OfPayment(p)
      ensures EventHolds(rs, Reverse(ps, p, version), billed, t, k)
    {
      assert EventHolds(rs, ps, billed, t, k);
    }
  }

  lemma {:induction false} PaymentVoidedKeeps(
      rs: seq<Record>, ps: seq<Payment>, billed: seq<int>, t: Earnings, p: nat, version: nat)
    requires CommissionInv(rs, ps, billed, t) && p < |ps| && ps[p].status == Recorded
    ensures var ps' := Reverse(ps, p, version);
            CommissionInv(rs, ps', billed, OnPaymentVoided(t, ps', p))
            && OnPaymentVoided(t, ps', p).plans == t.plans
  {
    var earned := FindEvent(t.events, OfPayment(p));
    if earned.None? {
      ReversalKeepsOthers(rs, ps, billed, t, p, version);
    } else {
      EarnedReversalKeeps(rs, ps, billed, t, p, version, earned.value);
    }
  }

  lemma {:induction false} EarnedReversalKeeps(
      rs: seq<Record>, ps: seq<Payment>, billed: seq<int>, t: Earnings, p: nat, version: nat, k: nat)
    requires CommissionInv(rs, ps, billed, t) && p < |ps| && ps[p].status == Recorded
    requires k < |t.events| && t.events[k].source == OfPayment(p)
    ensures CommissionInv(rs, Reverse(ps, p, version), billed,
                          CreateAdjustment(t, k, AdjustmentFor(t.events[k].terms, -ps[p].amount, false), OfPayment(p)))
  {
    ReversalKeepsOthers(rs, ps, billed, t, p, version);
    assert EventHolds(rs, ps, billed, t, k);
    forall m | 0 <= m < |t.events| && m != k ensures t.events[m].source != OfPayment(p) {
    }
    VoidedPaymentNetsZero(rs, ps, billed, t, p, version, k);
    AdjustmentKeeps(rs, Reverse(ps, p, version), billed, t, k,
                    AdjustmentFor(t.events[k].terms, -ps[p].amount, false), OfPayment(p));
  }

  /** The one adjustment of a voided payment takes back exactly what it earned. */
  lemma {:induction false} VoidedPaymentNetsZero(
      rs: seq<Record>, ps: seq<Payment>, billed: seq<int>, t: Earnings, p: nat, version: nat, k: nat)
    requires p < |ps| && ps[p].status == Recorded && k < |t.events| && t.events[k].source == OfPayment(p)
    requires EventHolds(rs, ps, billed, t, k) && !HasAdjustment(t.adjustments, OfPayment(p))
    ensures EventHolds(rs, Reverse(ps, p, version), billed,
                       CreateAdjustment(t, k, AdjustmentFor(t.events[k].terms, -ps[p].amount, false), OfPayment(p)), k)
  {
    AppendedAdjustment(t, k, AdjustmentFor(t.events[k].terms, -ps[p].amount, false), OfPayment(p), k);
    UnadjustedNet(t.adjustments, k);
    RateReverses(ps[p].amount, t.events[k].terms.rate);
  }

  lemma {:induction false} UnadjustedNet(adjustments: seq<Adjustment>, k: nat)
    requires AdjustmentCount(adjustments, k) == 0
    ensures AdjustedBy(adjustments, k) == 0
  {
    if adjustments != [] {
      UnadjustedNet(adjustments[..|adjustments| - 1], k);
    }
  }

  lemma {:induction false} StatementKeeps(
      rs: seq<Record>, ps: seq<Payment>, billed: seq<int>, t: Earnings, amount: int, periodEnd: Date)
    requires CommissionInv(rs, ps, billed, t)
    ensures CommissionInv(rs, ps, billed + [amount], OnStatementIssued(t, |billed|, amount, periodEnd))
    ensures OnStatementIssued(t, |billed|, amount, periodEnd).plans == t.plans
  {
    var billed' := billed + [amount];
    var t' := OnStatementIssued(t, |billed|, amount, periodEnd);
    forall k | 0 <= k < |t.events|
      ensures EventHolds(rs, ps, billed', t, k) && t.events[k].source != OfStatement(|billed|)
    {
      assert EventHolds(rs, ps, billed, t, k);
    }
    forall a | 0 <= a < |t.adjustments| ensures AdjustmentHolds(rs, ps, t, a) {
      assert AdjustmentHolds(rs, ps, t, a);
    }
    if t' != t {
      NewEventKeeps(rs, ps, billed', t, t');
    }
  }

  /** A new plan rewrites no earned history. */
  lemma {:induction false} NewPlanKeeps(rs: seq<Record>, ps: seq<Payment>, billed: seq<int>, t: Earnings, plan: Plan)
    requires CommissionInv(rs, ps, billed, t) && Ordered(t.plans) && Create(t.plans, plan).Ok?
    ensures CommissionInv(rs, ps, billed, t.(plans := Create(t.plans, plan).value))
    ensures Ordered(Create(t.plans, plan).value)
  {
    var t' := t.(plans := Create(t.plans, plan).value);
    CreateKeepsOrder(t.plans, plan);
    ClosedRowsEndBefore(t.plans, plan.from);
    forall k | 0 <= k < |t.events| ensures EventHolds(rs, ps, billed, t', k) {
      assert EventHolds(rs, ps, billed, t, k);
    }
    forall a | 0 <= a < |t.adjustments| ensures AdjustmentHolds(rs, ps, t', a) {
      assert AdjustmentHolds(rs, ps, t, a);
    }
  }

  // ---- what the invariant says about a chain's net -----------------------------

  /** For a rated basis, after k adjustments the net is within half a unit per rounding
      of the rate applied to what is still accepted. */
  lemma {:induction false} DriftBound(rs: seq<Record>, ps: seq<Payment>, billed: seq<int>, t: Earnings, k: nat)
    requires CommissionInv(rs, ps, billed, t) && k < |t.events|
    requires t.events[k].source.OfRecord? && t.events[k].terms.Rated?
    ensures var e, rate := t.events[k].source.id, t.events[k].terms.rate;
            e < |rs|
            && AdjustmentCount(t.adjustments, k) == EndedLinks(rs, e)
            && Abs(RATE_BP_SCALE * Net(t, k) - rate * AcceptedValue(rs[Tail(rs, e)])) <= 5000 * (EndedLinks(rs, e) + 1)
            && (rs[e].status == Voided ==> Net(t, k) == 0)
  {
    assert EventHolds(rs, ps, billed, t, k);
  }

  /** The net of a payment's event is all of it or, once the payment is voided, nothing. */
  lemma {:induction false} PaymentNet(rs: seq<Record>, ps: seq<Payment>, billed: seq<int>, t: Earnings, k: nat)
    requires CommissionInv(rs, ps, billed, t) && k < |t.events| && t.events[k].source.OfPayment?
    ensures var p := t.events[k].source.id;
            p < |ps| && t.events[k].terms.Rated?
            && Net(t, k) == if ps[p].status == Recorded then ApplyRateBp(ps[p].amount, t.events[k].terms.rate) else 0
  {
    assert EventHolds(rs, ps, billed, t, k);
    if AdjustmentCount(t.adjustments, k) == 0 {
      UnadjustedNet(t.adjustments, k);
    }
  }

  /** What PER_EVENT promises: the fee while the chain ends in an ACTIVE SERVICE. */
  function PromisedFee(rs: seq<Record>, e: nat, fixed: int): int
    requires e < |rs|
  {
    var tail := rs[Tail(rs, e)];
    if tail.status == Active && tail.kind == Service then fixed else 0
  }

  /** The net fee in general, and exactly when it is the promised one: the fee is zero, or
      no SKIP after the earning record has itself been corrected or voided. */
  lemma {:induction false} PerEventNet(rs: seq<Record>, ps: seq<Payment>, billed: seq<int>, t: Earnings, k: nat)
    requires CommissionInv(rs, ps, billed, t) && k < |t.events|
    requires t.events[k].source.OfRecord? && t.events[k].terms.PerEvent?
    ensures var e, fixed := t.events[k].source.id, t.events[k].terms.fixed;
            e < |rs|
            && Net(t, k) == fixed * (1 - Drops(rs, e))
            && (Net(t, k) == PromisedFee(rs, e, fixed) <==> fixed == 0 || EndedSkipsAfter(rs, e) == 0)
  {
    assert EventHolds(rs, ps, billed, t, k);
    FeeGap(rs, t.events[k].source.id, t.events[k].terms.fixed);
  }

  lemma {:induction false} FeeGap(rs: seq<Record>, e: nat, fixed: int)
    requires Chained(rs) && e < |rs| && rs[e].kind == Service
    ensures fixed * (1 - Drops(rs, e)) - PromisedFee(rs, e, fixed) == -(fixed * EndedSkipsAfter(rs, e))
    ensures fixed * EndedSkipsAfter(rs, e) == 0 <==> fixed == 0 || EndedSkipsAfter(rs, e) == 0
  {
    SkipsSplit(rs, e);
    var ended: int := EndedSkipsAfter(rs, e);
    assert rs[Tail(rs, e)].status != Superseded;
    assert Drops(rs, e) == ended || Drops(rs, e) == ended + 1;
    assert fixed * (1 - ended) == fixed - fixed * ended;
    assert fixed * (1 - (ended + 1)) == -(fixed * ended);
  }

  /** An earning SERVICE that was corrected to the SKIP `j`, still ACTIVE. */
  ghost predicate SkippedOnce(rs: seq<Record>, t: Earnings, k: nat, j: nat) {
    k < |t.events| && t.events[k].source.OfRecord? && t.events[k].terms.PerEvent? && t.events[k].source.id < |rs|
    && j < |rs| && rs[j].kind == Skip && rs[j].status == Active
    && Tail(rs, t.events[k].source.id) == j && SkipsAfter(rs, t.events[k].source.id) == 1
  }

  lemma {:induction false} TakenBack(fixed: int, once: int, twice: int)
    requires once == 1 && twice == 2
    ensures fixed * (1 - once) == 0 && fixed * (1 - twice) == -fixed
  {
  }

  /** SERVICE, corrected to SKIP, then voided: the fee is taken back twice. */
  lemma {:induction false} SkipThenVoid(
      rs: seq<Record>, ps: seq<Payment>, billed: seq<int>, t: Earnings, k: nat, j: nat, v: nat)
    requires CommissionInv(rs, ps, billed, t) && SkippedOnce(rs, t, k, j)
    ensures var t' := OnServiceVoided(t, VoidRecord(rs, j, v), j);
            t'.events == t.events && Net(t, k) == 0 && Net(t', k) == -t.events[k].terms.fixed
  {
    var e, rs' := t.events[k].source.id, VoidRecord(rs, j, v);
    VoidedKeeps(rs, ps, billed, t, j, v);
    VoidDrops(rs, e, j, v);
    TakenBack(t.events[k].terms.fixed, Drops(rs, e), Drops(rs', e));
    NetByDrops(rs, ps, billed, t, k);
    NetByDrops(rs', ps, billed, OnServiceVoided(t, rs', j), k);
  }

  lemma {:induction false} VoidDrops(rs: seq<Record>, e: nat, j: nat, v: nat)
    requires Chained(rs) && e < |rs| && j < |rs| && rs[j].status == Active && Tail(rs, e) == j && SkipsAfter(rs, e) == 1
    ensures Drops(rs, e) == 1 && Drops(VoidRecord(rs, j, v), e) == 2
  {
    VoidKeepsChains(rs, j, v, e);
  }

  lemma {:induction false} NetByDrops(rs: seq<Record>, ps: seq<Payment>, billed: seq<int>, t: Earnings, k: nat)
    requires CommissionInv(rs, ps, billed, t) && k < |t.events|
    requires t.events[k].source.OfRecord? && t.events[k].terms.PerEvent?
    ensures var e := t.events[k].source.id; e < |rs| && Net(t, k) == t.events[k].terms.fixed * (1 - Drops(rs, e))
  {
    assert EventHolds(rs, ps, billed, t, k);
  }

  /** SERVICE, corrected to SKIP and back to SERVICE: the fee is never restored. */
  lemma {:induction false} SkipThenService(
      rs: seq<Record>, ps: seq<Payment>, billed: seq<int>, t: Earnings, k: nat, j: nat, v: nat, again: Record)
    requires CommissionInv(rs, ps, billed, t) && SkippedOnce(rs, t, k, j)
    requires again.kind == Service && again.status == Active && again.corrects == Some(j) && again.supersededBy.None?
    ensures var rs' := Supersede(rs, j, v, again);
            var t' := OnServiceCorrected(t, rs', j, |rs|);
            k < |t'.events| && t'.events[k] == t.events[k] && Net(t', k) == 0
            && PromisedFee(rs', t.events[k].source.id, t.events[k].terms.fixed) == t.events[k].terms.fixed
  {
    var e, rs' := t.events[k].source.id, Supersede(rs, j, v, again);
    var t' := OnServiceCorrected(t, rs', j, |rs|);
    CorrectedKeeps(rs, ps, billed, t, j, v, again);
    SupersedeExtendsChain(rs, j, v, again, e);
    assert rs'[|rs|] == again && Drops(rs', e) == 1;
    PerEventNet(rs', ps, billed, t', k);
  }
}
