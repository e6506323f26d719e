/** What each commission hook does, said without it: which event or adjustment the tenant's
    earnings gain, from which plan, and at what amount. */
module CommissionEffects {
  import opened Outcomes
  import opened Calendar
  import opened Money
  import opened Ranges
  import opened Records
  import opened Payments
  import opened Commission

  // ---- what there is to gain ---------------------------------------------------

  ghost predicate InForce(plans: seq<Plan>, p: nat, on: Date) {
    p < |plans| && plans[p].from.Key() <= on.Key() && (plans[p].to.Some? ==> on.Key() <= plans[p].to.value.Key())
  }

  /** Services earn per event or on the recorded value, payments on the collected value and
      statements on the billed one. */
  ghost predicate EarnsOn(terms: Terms, source: Source) {
    match source
    case OfRecord(_) => terms.PerEvent? || terms.basis == RecordedValue
    case OfPayment(_) => terms.Rated? && terms.basis == CollectedValue
    case OfStatement(_) => terms.Rated? && terms.basis == BilledValue
  }

  ghost predicate SomePlanEarns(plans: seq<Plan>, source: Source, on: Date) {
    exists p: nat :: InForce(plans, p, on) && EarnsOn(plans[p].terms, source)
  }

  /** A fee is the plan's own; a rate is rounded once, a tie going away from zero. */
  ghost predicate IsCommission(terms: Terms, base: int, amount: int) {
    match terms
    case PerEvent(fixed) => amount == fixed
    case Rated(_, rate) => IsHalfUp(base * rate, 10_000, amount)
  }

  /** A fee is taken back whole when the service no longer earns; a rate moves by the rounded
      rate of the difference. */
  ghost predicate IsAdjustment(terms: Terms, delta: int, stillEarns: bool, amount: int) {
    match terms
    case PerEvent(fixed) => amount == if stillEarns then 0 else -fixed
    case Rated(_, rate) => IsHalfUp(delta * rate, 10_000, amount)
  }

  ghost predicate IsEventFor(plans: seq<Plan>, e: Event, source: Source, base: int, on: Date) {
    e.source == source && e.base == base && e.occurredOn == on
    && InForce(plans, e.plan, on) && e.terms == plans[e.plan].terms && EarnsOn(e.terms, source)
    && IsCommission(e.terms, base, e.commission)
  }

  /** The document's one event when a plan in force that day earns on it; nothing else. */
  ghost predicate GainsEvent(t: Earnings, t': Earnings, source: Source, base: int, on: Date) {
    t'.plans == t.plans && t'.adjustments == t.adjustments
    && if SomePlanEarns(t.plans, source, on)
       then |t'.events| == |t.events| + 1 && t'.events[..|t.events|] == t.events
            && IsEventFor(t.plans, t'.events[|t.events|], source, base, on)
       else t'.events == t.events
  }

  /** One adjustment of event `k`; nothing else. */
  ghost predicate GainsAdjustment(t: Earnings, t': Earnings, k: nat, source: Source, delta: int, stillEarns: bool) {
    k < |t.events| && t'.plans == t.plans && t'.events == t.events
    && |t'.adjustments| == |t.adjustments| + 1 && t'.adjustments[..|t.adjustments|] == t.adjustments
    && var a := t'.adjustments[|t.adjustments|];
       a.event == k && a.source == source && IsAdjustment(t.events[k].terms, delta, stillEarns, a.amount)
  }

  /** Event `k` was earned somewhere on the chain that ends at record `i`. */
  ghost predicate EarnedOnChain(rs: seq<Record>, t: Earnings, k: nat, i: nat) {
    k < |t.events| && t.events[k].source.OfRecord? && t.events[k].source.id < |rs|
    && Tail(rs, t.events[k].source.id) == i
  }

  ghost predicate SomeEarned(rs: seq<Record>, t: Earnings, i: nat) {
    exists k :: EarnedOnChain(rs, t, k, i)
  }

  /** A correction of record `i` to a charge: the chain's event is adjusted by the difference,
      and a chain that has not earned yet may earn on the replacement. */
  ghost predicate Reearns(rs: seq<Record>, t: Earnings, t': Earnings, i: nat, r: Record)
    requires i < |rs|
  {
    if SomeEarned(rs, t, i)
    then exists k :: EarnedOnChain(rs, t, k, i)
                     && GainsAdjustment(t, t', k, OfRecord(i), r.charge - rs[i].charge, r.kind == Service)
    else if r.kind == Service then GainsEvent(t, t', OfRecord(|rs|), r.charge, r.date)
    else t' == t
  }

  /** The void of record `i` gives its accepted value back at the chain's event. */
  ghost predicate GivesBack(rs: seq<Record>, t: Earnings, t': Earnings, i: nat)
    requires i < |rs|
  {
    if SomeEarned(rs, t, i)
    then exists k :: EarnedOnChain(rs, t, k, i) && GainsAdjustment(t, t', k, OfRecord(i), -rs[i].charge, false)
    else t' == t
  }

  ghost predicate GivesBackPayment(ps: seq<Payment>, t: Earnings, t': Earnings, p: nat)
    requires p < |ps|
  {
    if exists k :: 0 <= k < |t.events| && t.events[k].source == OfPayment(p)
    then exists k: nat :: k < |t.events| && t.events[k].source == OfPayment(p)
                          && GainsAdjustment(t, t', k, OfPayment(p), -ps[p].amount, false)
    else t' == t
  }

  // ---- events ------------------------------------------------------------------

  lemma RateIsHalfUp(base: int, rate: int)
    ensures IsHalfUp(base * rate, 10_000, ApplyRateBp(base, rate))
  {
    RoundHalfUpIsNearest(base * rate, RATE_BP_SCALE, ApplyRateBp(base, rate));
  }

  /** In an ordered table the row in force is the one that is looked up. */
  lemma EffectiveIsInForce(plans: seq<Plan>, p: nat, on: Date)
    requires Ordered(plans)
    ensures InForce(plans, p, on) <==> Effective(plans, on) == Some(p)
  {
    if InForce(plans, p, on) {
      EffectiveIsUnique(plans, on, p);
    }
  }

  lemma CreatesItsEvent(t: Earnings, plan: nat, source: Source, base: int, on: Date, t': Earnings)
    requires InForce(t.plans, plan, on) && EarnsOn(t.plans[plan].terms, source) && FindEvent(t.events, source).None?
    requires t' == CreateEvent(t, plan, source, base, on)
    ensures GainsEvent(t, t', source, base, on)
  {
    if t.plans[plan].terms.Rated? {
      RateIsHalfUp(base, t.plans[plan].terms.rate);
    }
  }

  lemma EarnsNothing(t: Earnings, source: Source, base: int, on: Date)
    requires Ordered(t.plans)
    requires Effective(t.plans, on).None? || !EarnsOn(t.plans[Effective(t.plans, on).value].terms, source)
    ensures GainsEvent(t, t, source, base, on)
  {
    if p: nat :| InForce(t.plans, p, on) && EarnsOn(t.plans[p].terms, source) {
      EffectiveIsInForce(t.plans, p, on);
    }
  }

  lemma RecordedGains(t: Earnings, rs: seq<Record>, i: nat)
    requires Ordered(t.plans) && i < |rs| && rs[i].kind == Service && FindEvent(t.events, OfRecord(i)).None?
    ensures GainsEvent(t, OnServiceRecorded(t, rs, i), OfRecord(i), rs[i].charge, rs[i].date)
  {
    var plan := Effective(t.plans, rs[i].date);
    if plan.Some? && EarnsOn(t.plans[plan.value].terms, OfRecord(i)) {
      EffectiveIsInForce(t.plans, plan.value, rs[i].date);
      CreatesItsEvent(t, plan.value, OfRecord(i), rs[i].charge, rs[i].date, OnServiceRecorded(t, rs, i));
    } else {
      EarnsNothing(t, OfRecord(i), rs[i].charge, rs[i].date);
    }
  }

  lemma PaymentGains(t: Earnings, ps: seq<Payment>, p: nat)
    requires Ordered(t.plans) && p < |ps| && FindEvent(t.events, OfPayment(p)).None?
    ensures GainsEvent(t, OnPaymentRecorded(t, ps, p), OfPayment(p), ps[p].amount, ps[p].receivedOn)
  {
    var plan := Effective(t.plans, ps[p].receivedOn);
    if plan.Some? && EarnsOn(t.plans[plan.value].terms, OfPayment(p)) {
      EffectiveIsInForce(t.plans, plan.value, ps[p].receivedOn);
      CreatesItsEvent(t, plan.value, OfPayment(p), ps[p].amount, ps[p].receivedOn, OnPaymentRecorded(t, ps, p));
    } else {
      EarnsNothing(t, OfPayment(p), ps[p].amount, ps[p].receivedOn);
    }
  }

  lemma StatementGains(t: Earnings, s: nat, billed: int, on: Date)
    requires Ordered(t.plans) && FindEvent(t.events, OfStatement(s)).None?
    ensures GainsEvent(t, OnStatementIssued(t, s, billed, on), OfStatement(s), billed, on)
  {
    var plan := Effective(t.plans, on);
    if plan.Some? && EarnsOn(t.plans[plan.value].terms, OfStatement(s)) {
      EffectiveIsInForce(t.plans, plan.value, on);
      CreatesItsEvent(t, plan.value, OfStatement(s), billed, on, OnStatementIssued(t, s, billed, on));
    } else {
      EarnsNothing(t, OfStatement(s), billed, on);
    }
  }

  // ---- adjustments -------------------------------------------------------------

  lemma CreatesItsAdjustment(
      t: Earnings, k: nat, source: Source, delta: int, stillEarns: bool, t': Earnings)
    requires k < |t.events| && !HasAdjustment(t.adjustments, source)
    requires t' == CreateAdjustment(t, k, AdjustmentFor(t.events[k].terms, delta, stillEarns), source)
    ensures GainsAdjustment(t, t', k, source, delta, stillEarns)
  {
    if t.events[k].terms.Rated? {
      RateIsHalfUp(delta, t.events[k].terms.rate);
    }
  }

  /** The walk back depends on what is corrected only. */
  lemma {:induction false} SameChain(rs: seq<Record>, rs': seq<Record>, i: nat)
    requires i < |rs| <= |rs'| && forall x :: 0 <= x <= i ==> rs'[x].corrects == rs[x].corrects
    ensures Chain(rs', i) == Chain(rs, i)
  {
    if rs[i].corrects.Some? && rs[i].corrects.value < i {
      SameChain(rs, rs', rs[i].corrects.value);
    }
  }

  /** The event found for a live record's chain, and by the walk forward. */
  lemma {:induction false} ChainEventIsEarned(rs: seq<Record>, rs': seq<Record>, t: Earnings, i: nat, k: nat)
    requires Chained(rs) && i < |rs| <= |rs'| && rs[i].status == Active && k < |t.events|
    requires forall x :: 0 <= x <= i ==> rs'[x].corrects == rs[x].corrects
    ensures EarnedBy(t.events[k], Chain(rs', i)) <==> EarnedOnChain(rs, t, k, i)
  {
    SameChain(rs, rs', i);
    if t.events[k].source.OfRecord? && t.events[k].source.id < |rs| {
      ChainIsTailClass(rs, i, t.events[k].source.id);
    }
  }

  lemma {:induction false} ChainEventFound(rs: seq<Record>, rs': seq<Record>, t: Earnings, i: nat)
    requires Chained(rs) && i < |rs| <= |rs'| && rs[i].status == Active
    requires forall x :: 0 <= x <= i ==> rs'[x].corrects == rs[x].corrects
    ensures ChainEvent(t.events, Chain(rs', i)).Some? <==> SomeEarned(rs, t, i)
    ensures ChainEvent(t.events, Chain(rs', i)).Some? ==>
              EarnedOnChain(rs, t, ChainEvent(t.events, Chain(rs', i)).value, i)
  {
    var found := ChainEvent(t.events, Chain(rs', i));
    if found.Some? {
      ChainEventIsEarned(rs, rs', t, i, found.value);
    }
    if k :| EarnedOnChain(rs, t, k, i) {
      ChainEventIsEarned(rs, rs', t, i, k);
    }
  }

  lemma {:induction false} CorrectedGains(
      rs: seq<Record>, t: Earnings, i: nat, version: nat, r: Record, rs': seq<Record>)
    requires Ordered(t.plans) && Chained(rs) && i < |rs| && rs[i].status == Active
    requires rs' == Supersede(rs, i, version, r)
    requires FindEvent(t.events, OfRecord(|rs|)).None? && !HasAdjustment(t.adjustments, OfRecord(i))
    ensures Reearns(rs, t, OnServiceCorrected(t, rs', i, |rs|), i, r)
  {
    ChainEventFound(rs, rs', t, i);
    var found := ChainEvent(t.events, Chain(rs', i));
    if found.Some? {
      CreatesItsAdjustment(t, found.value, OfRecord(i), r.charge - rs[i].charge, r.kind == Service,
                           OnServiceCorrected(t, rs', i, |rs|));
    } else if r.kind == Service {
      RecordedGains(t, rs', |rs|);
    }
  }

  lemma {:induction false} VoidedGains(rs: seq<Record>, t: Earnings, i: nat, version: nat, rs': seq<Record>)
    requires Chained(rs) && i < |rs| && rs[i].status == Active && rs' == VoidRecord(rs, i, version)
    requires !HasAdjustment(t.adjustments, OfRecord(i))
    ensures GivesBack(rs, t, OnServiceVoided(t, rs', i), i)
  {
    ChainEventFound(rs, rs', t, i);
    var found := ChainEvent(t.events, Chain(rs', i));
    if found.Some? {
      CreatesItsAdjustment(t, found.value, OfRecord(i), -rs[i].charge, false, OnServiceVoided(t, rs', i));
    }
  }

  lemma PaymentVoidedGains(ps: seq<Payment>, ps': seq<Payment>, t: Earnings, p: nat)
    requires p < |ps| == |ps'| && ps'[p].amount == ps[p].amount && !HasAdjustment(t.adjustments, OfPayment(p))
    ensures GivesBackPayment(ps, t, OnPaymentVoided(t, ps', p), p)
  {
    var found := FindEvent(t.events, OfPayment(p));
    if found.Some? {
      CreatesItsAdjustment(t, found.value, OfPayment(p), -ps[p].amount, false, OnPaymentVoided(t, ps', p));
    }
  }
}
