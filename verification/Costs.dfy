/** Operating costs of one cost item: versioned rates, and monthly figures that are
    superseded with a reason, never edited. Amounts are minor units; a usage quantity is a
    count of millionths. */
module Costs {
  import opened Outcomes
  import opened Calendar
  import opened Money
  import opened Ranges

  const MICRO: int := 1_000_000
  const USAGE_MAX_MICRO: int := 999_999_999_999_999_999
  const MONTHS_PER_YEAR: int := 12

  datatype Recurrence = Monthly | Annual

  datatype RateTerms = UsagePriced(unitPrice: int) | FixedPrice(amount: int, recurrence: Recurrence)

  // ---- estimates ---------------------------------------------------------------

  /** A fixed charge as one month of it. */
  function MonthlyEquivalent(amount: int, recurrence: Recurrence): int {
    match recurrence
    case Monthly => amount
    case Annual => RoundHalfUp(amount, MONTHS_PER_YEAR)
  }

  /** One month's cost; unknown without a measured usage, or with a price out of range. */
  function EstimateMinor(terms: RateTerms, usage: Option<int>): Option<int> {
    match terms
    case UsagePriced(price) =>
      if usage.None? || !IsUnitPrice(price) then None else Some(RoundHalfUp(usage.value * price, MICRO))
    case FixedPrice(amount, recurrence) => Some(MonthlyEquivalent(amount, recurrence))
  }

  /** What one month costs, for each kind of rate: measured usage at its price, a monthly fee
      as it is, an annual one by twelve; rounded once, a tie going away from zero. */
  lemma EstimateExactly(terms: RateTerms, usage: Option<int>)
    ensures var r := EstimateMinor(terms, usage);
            match terms
            case UsagePriced(price) =>
              (r.Some? <==> usage.Some? && 0 <= price <= 1_000_000_000_000)
              && (r.Some? ==> IsHalfUp(usage.value * price, 1_000_000, r.value))
            case FixedPrice(amount, Monthly) => r == Some(amount)
            case FixedPrice(amount, Annual) => r.Some? && IsHalfUp(amount, 12, r.value)
  {
    match terms
    case UsagePriced(price) =>
      if usage.Some? {
        RoundHalfUpIsNearest(usage.value * price, 1_000_000, RoundHalfUp(usage.value * price, 1_000_000));
      }
    case FixedPrice(amount, _) => RoundHalfUpIsNearest(amount, 12, RoundHalfUp(amount, 12));
  }

  /** Twelve months of an annual fee differ from it by at most six minor units, and a
      usage estimate from the exact product by at most half of one. */
  lemma EstimateError(amount: int, usage: int, price: int)
    ensures Abs(12 * MonthlyEquivalent(amount, Annual) - amount) <= 6
    ensures IsUnitPrice(price) ==>
              2 * Abs(MICRO * EstimateMinor(UsagePriced(price), Some(usage)).value - usage * price) <= MICRO
  {
    RoundingError(amount, MONTHS_PER_YEAR);
    RoundingError(usage * price, MICRO);
  }

  // ---- figures -----------------------------------------------------------------

  /** One month's recorded figure. `Basis` is what it was computed from, frozen with it. */
  datatype Figure<+Basis> = Figure(
    month: Date,
    amount: int,
    basis: Basis,
    active: bool,
    supersedes: Option<nat>,
    supersededBy: Option<nat>)

  datatype CostError = NoRate | FixedRate | FutureMonth | BadUsage | BadAmount | BadPrice | ReasonRequired | RateOverlap

  function MonthStart(d: Date): Date {
    YMD(d.year, d.month, 1)
  }

  lemma MonthsInOrder(a: Date, b: Date)
    ensures MonthStart(a).Key() < MonthStart(b).Key()
            <==> (a.year, a.month) != (b.year, b.month) && a.Key() < b.Key()
  {
    KeyIsLexicographic(a, b);
    KeyIsLexicographic(MonthStart(a), MonthStart(b));
  }

  function ActiveFigure<Basis>(figures: seq<Figure<Basis>>, month: Date): (r: Option<nat>)
    ensures r.Some? ==> r.value < |figures| && figures[r.value].active && figures[r.value].month == month
    ensures r.None? ==> forall i :: 0 <= i < |figures| ==> !(figures[i].active && figures[i].month == month)
  {
    if figures == [] then None
    else
      var last := |figures| - 1;
      if figures[last].active && figures[last].month == month then Some(last) else ActiveFigure(figures[..last], month)
  }

  /** Free the month's slot first, then insert the successor. */
  function RecordFigure<Basis>(
      figures: seq<Figure<Basis>>, month: Date, amount: int, basis: Basis, reasonGiven: bool)
    : Result<seq<Figure<Basis>>, CostError>
  {
    var previous := ActiveFigure(figures, month);
    if previous.None? then Ok(figures + [Figure(month, amount, basis, true, None, None)])
    else if !reasonGiven then Err(ReasonRequired)
    else
      var next := Some(|figures|);
      var closed := figures[previous.value := figures[previous.value].(active := false, supersededBy := next)];
      Ok(closed + [Figure(month, amount, basis, true, previous, None)])
  }

  /** Only the newest figure of a month is ACTIVE. */
  ghost predicate OneActive<Basis>(figures: seq<Figure<Basis>>) {
    forall i, j :: 0 <= i < j < |figures| && figures[i].month == figures[j].month ==> !figures[i].active
  }

  /** The chain of replacements is walkable both ways. */
  ghost predicate Linked<Basis>(figures: seq<Figure<Basis>>) {
    (forall i :: 0 <= i < |figures| ==> (figures[i].active <==> figures[i].supersededBy.None?))
    && (forall i :: 0 <= i < |figures| && figures[i].supersededBy.Some? ==>
          var j := figures[i].supersededBy.value;
          i < j < |figures| && figures[j].supersedes == Some(i) && figures[j].month == figures[i].month)
    && (forall j :: 0 <= j < |figures| && figures[j].supersedes.Some? ==>
          var i := figures[j].supersedes.value;
          i < j && figures[i].supersededBy == Some(j))
  }

  ghost predicate FiguresOk<Basis>(figures: seq<Figure<Basis>>) {
    OneActive(figures) && Linked(figures)
  }

  /** What was recorded stays as it was computed. */
  ghost predicate Frozen<Basis>(figures: seq<Figure<Basis>>, figures': seq<Figure<Basis>>) {
    |figures| <= |figures'|
    && forall i :: 0 <= i < |figures| ==>
         figures'[i].month == figures[i].month && figures'[i].amount == figures[i].amount
         && figures'[i].basis == figures[i].basis && figures'[i].supersedes == figures[i].supersedes
         && (!figures[i].active ==> figures'[i] == figures[i])
  }

  lemma {:induction false} FirstFigureKeeps<Basis>(figures: seq<Figure<Basis>>, month: Date, amount: int, basis: Basis)
    requires FiguresOk(figures) && ActiveFigure(figures, month).None?
    ensures var r := figures + [Figure(month, amount, basis, true, None, None)]; FiguresOk(r) && Frozen(figures, r)
  {
  }

  function Replaced<Basis>(
      figures: seq<Figure<Basis>>, p: nat, month: Date, amount: int, basis: Basis): seq<Figure<Basis>>
    requires p < |figures|
  {
    figures[p := figures[p].(active := false, supersededBy := Some(|figures|))]
    + [Figure(month, amount, basis, true, Some(p), None)]
  }

  lemma {:induction false} ReplacementKeeps<Basis>(
      figures: seq<Figure<Basis>>, p: nat, month: Date, amount: int, basis: Basis)
    requires FiguresOk(figures) && ActiveFigure(figures, month) == Some(p)
    ensures var r := Replaced(figures, p, month, amount, basis); OneActive(r) && Frozen(figures, r)
    ensures Linked(Replaced(figures, p, month, amount, basis))
  {
    ReplacementKeepsLinks(figures, p, month, amount, basis);
    ReplacementIsOnlyActive(figures, p, month, amount, basis);
  }

  lemma {:induction false} ReplacementIsOnlyActive<Basis>(
      figures: seq<Figure<Basis>>, p: nat, month: Date, amount: int, basis: Basis)
    requires OneActive(figures) && p < |figures| && figures[p].active && figures[p].month == month
    ensures OneActive(Replaced(figures, p, month, amount, basis))
  {
    var r := Replaced(figures, p, month, amount, basis);
    forall i, j | 0 <= i < j < |r| && r[i].month == r[j].month ensures !r[i].active {
      if i != p {
        assert r[i] == figures[i];
      }
    }
  }

  lemma {:induction false} ReplacementKeepsLinks<Basis>(
      figures: seq<Figure<Basis>>, p: nat, month: Date, amount: int, basis: Basis)
    requires Linked(figures) && p < |figures| && figures[p].active && figures[p].month == month
    ensures Linked(Replaced(figures, p, month, amount, basis))
  {
    var r := Replaced(figures, p, month, amount, basis);
    forall j | 0 <= j < |r| && r[j].supersedes.Some?
      ensures r[j].supersedes.value < j && r[r[j].supersedes.value].supersededBy == Some(j)
    {
      if j < |figures| {
        assert figures[j].supersedes.value != p;
      }
    }
    forall i | 0 <= i < |r| && r[i].supersededBy.Some?
      ensures var j := r[i].supersededBy.value;
              i < j < |r| && r[j].supersedes == Some(i) && r[j].month == r[i].month
    {
      if i != p {
        assert r[i] == figures[i];
      }
    }
  }

  /** Recording a figure keeps the chains, changes no recorded amount, and leaves exactly
      the new figure ACTIVE for its month; without a reason a replacement is refused, and
      that is the only refusal. */
  lemma {:induction false} RecordKeepsFigures<Basis>(
      figures: seq<Figure<Basis>>, month: Date, amount: int, basis: Basis, reasonGiven: bool)
    requires FiguresOk(figures)
    ensures var r := RecordFigure(figures, month, amount, basis, reasonGiven);
            (r.Err? <==> !reasonGiven && ActiveFigure(figures, month).Some?)
            && (r.Ok? ==> FiguresOk(r.value) && Frozen(figures, r.value)
                          && |r.value| == |figures| + 1 && ActiveFigure(r.value, month) == Some(|figures|)
                          && r.value[|figures|]
                             == Figure(month, amount, basis, true, ActiveFigure(figures, month), None))
  {
    var previous := ActiveFigure(figures, month);
    if previous.None? {
      FirstFigureKeeps(figures, month, amount, basis);
    } else {
      ReplacementKeeps(figures, previous.value, month, amount, basis);
    }
  }

  /** Other months keep their ACTIVE figure. */
  lemma {:induction false} RecordKeepsOtherMonths<Basis>(
      figures: seq<Figure<Basis>>, month: Date, amount: int, basis: Basis, reasonGiven: bool, other: Date)
    requires other != month && RecordFigure(figures, month, amount, basis, reasonGiven).Ok?
    ensures ActiveFigure(RecordFigure(figures, month, amount, basis, reasonGiven).value, other)
            == ActiveFigure(figures, other)
  {
    ActiveIsUnique(figures, RecordFigure(figures, month, amount, basis, reasonGiven).value, other);
  }

  /** Tables that agree on a month have the same ACTIVE figure for it. */
  lemma {:induction false} ActiveIsUnique<Basis>(figures: seq<Figure<Basis>>, figures': seq<Figure<Basis>>, month: Date)
    requires |figures'| == |figures| + 1 && figures'[|figures|].month != month
    requires forall i :: 0 <= i < |figures| ==>
               figures'[i].month == figures[i].month
                 && (figures[i].month == month ==> figures'[i].active == figures[i].active)
    ensures ActiveFigure(figures', month) == ActiveFigure(figures, month)
  {
    assert |figures'[..|figures|]| == |figures|;
    SameMonthSameActive(figures, figures'[..|figures|], month);
  }

  lemma {:induction false} SameMonthSameActive<Basis>(a: seq<Figure<Basis>>, b: seq<Figure<Basis>>, month: Date)
    requires |a| == |b|
    requires forall i :: 0 <= i < |a| ==>
               b[i].month == a[i].month && (a[i].month == month ==> b[i].active == a[i].active)
    ensures ActiveFigure(a, month) == ActiveFigure(b, month)
  {
    if a != [] {
      SameMonthSameActive(a[..|a| - 1], b[..|a| - 1], month);
    }
  }

  // ---- the cost item, in place -------------------------------------------------

  /** A usage figure freezes the price it was computed at. */
  datatype Usage = Usage(micro: int, unitPrice: int)

  ghost predicate EstimatesHold(usage: seq<Figure<Usage>>) {
    forall i :: 0 <= i < |usage| ==>
      EstimateMinor(UsagePriced(usage[i].basis.unitPrice), Some(usage[i].basis.micro)) == Some(usage[i].amount)
  }

  /** The price a month's usage is estimated at, or why there is none: the first that applies
      of a month still to come, a usage out of range, no rate on the first of the month, a
      fixed one, and a price out of range. */
  ghost predicate IsPriced(
      rows: seq<Ranged<RateTerms>>, today: Date, on: Date, micro: int, r: Result<int, CostError>)
  {
    var rate := Effective(rows, YMD(on.year, on.month, 1));
    if (today.year, today.month) != (on.year, on.month) && today.Key() < on.Key() then r == Err(FutureMonth)
    else if micro < 0 || 999_999_999_999_999_999 < micro then r == Err(BadUsage)
    else if rate.None? then r == Err(NoRate)
    else if rows[rate.value].terms.FixedPrice? then r == Err(FixedRate)
    else if !(0 <= rows[rate.value].terms.unitPrice <= 1_000_000_000_000) then r == Err(BadPrice)
    else r == Ok(rows[rate.value].terms.unitPrice)
  }

  /** A priced usage is refused only for a figure to replace without a reason. */
  ghost predicate UsageRefusal(
      rows: seq<Ranged<RateTerms>>, today: Date, usage: seq<Figure<Usage>>, on: Date, micro: int, reasonGiven: bool,
      error: Option<CostError>)
  {
    exists price :: IsPriced(rows, today, on, micro, price)
                    && error == if price.Err? then Some(price.error)
                                else if !reasonGiven && HasActive(usage, YMD(on.year, on.month, 1))
                                then Some(ReasonRequired) else None
  }

  ghost predicate HasActive<Basis>(figures: seq<Figure<Basis>>, month: Date) {
    exists i :: 0 <= i < |figures| && figures[i].active && figures[i].month == month
  }

  /** And why an invoice is. */
  ghost predicate InvoiceRefusal(
      today: Date, actual: seq<Figure<()>>, on: Date, amount: int, reasonGiven: bool, error: Option<CostError>)
  {
    if (today.year, today.month) != (on.year, on.month) && today.Key() < on.Key() then error == Some(FutureMonth)
    else if amount < 0 then error == Some(BadAmount)
    else if !reasonGiven && HasActive(actual, YMD(on.year, on.month, 1)) then error == Some(ReasonRequired)
    else error.None?
  }

  ghost predicate PricedOn(rows: seq<Ranged<RateTerms>>, on: Date, price: int) {
    exists i :: 0 <= i < |rows| && rows[i].Covers(on) && rows[i].terms == UsagePriced(price)
  }

  /** The figure of a month's usage, at the price in force on the first of it. */
  ghost predicate IsMeasured(rows: seq<Ranged<RateTerms>>, figure: Figure<Usage>, on: Date, micro: int) {
    figure.month == YMD(on.year, on.month, 1) && figure.active && figure.basis.micro == micro
    && IsHalfUp(micro * figure.basis.unitPrice, 1_000_000, figure.amount)
    && PricedOn(rows, figure.month, figure.basis.unitPrice)
  }

  predicate ValidRate(terms: RateTerms) {
    match terms
    case UsagePriced(price) => 0 <= price
    case FixedPrice(amount, _) => 0 <= amount
  }

  lemma EstimateIsMeasured(
      rows: seq<Ranged<RateTerms>>, on: Date, micro: int, price: int, amount: int)
    requires PricedOn(rows, MonthStart(on), price)
    requires EstimateMinor(UsagePriced(price), Some(micro)) == Some(amount)
    ensures forall previous ::
              IsMeasured(rows, Figure(MonthStart(on), amount, Usage(micro, price), true, previous, None), on, micro)
  {
    EstimateExactly(UsagePriced(price), Some(micro));
  }

  class CostItem {
    const rates: RangeTable<RateTerms>
    var today: Date
    var usage: seq<Figure<Usage>>
    var actual: seq<Figure<()>>

    ghost predicate Valid()
      reads this, rates
    {
      Tiled(rates.rows) && FiguresOk(usage) && FiguresOk(actual) && EstimatesHold(usage)
    }

    constructor (today: Date)
      ensures Valid() && fresh(rates) && rates.rows == [] && usage == [] && actual == [] && this.today == today
    {
      this.today, usage, actual := today, [], [];
      rates := new RangeTable<RateTerms>();
    }

    /** Rates are always open-ended, so they tile; recorded figures do not move. */
    method CreateRate(from: Date, terms: RateTerms) returns (error: Option<CostError>)
      requires Valid()
      modifies rates
      ensures Valid() && usage == old(usage) && actual == old(actual)
      ensures error.None? <==> ValidRate(terms) && Create(old(rates.rows), Ranged(from, None, terms)).Ok?
      ensures error == Some(BadPrice) <==> (if terms.UsagePriced? then terms.unitPrice else terms.amount) < 0
      ensures error.Some? ==> error == Some(BadPrice) || error == Some(RateOverlap)
      ensures error.None? ==> Create(old(rates.rows), Ranged(from, None, terms)) == Ok(rates.rows)
      ensures error.Some? ==> rates.rows == old(rates.rows)
    {
      if !ValidRate(terms) {
        return Some(BadPrice);
      }
      OpenEndedKeepsTiles(rates.rows, Ranged(from, None, terms));
      var refused := rates.CreateRow(Ranged(from, None, terms));
      error := if refused.Some? then Some(RateOverlap) else None;
    }

    /** One month's measured usage, at the rate in force on the first of the month. */
    method RecordUsage(on: Date, micro: int, reasonGiven: bool) returns (error: Option<CostError>)
      requires Valid()
      modifies `usage
      ensures Valid() && Frozen(old(usage), usage)
      ensures error.Some? ==> usage == old(usage)
      ensures UsageRefusal(rates.rows, today, old(usage), on, micro, reasonGiven, error)
      ensures error.None? ==> |usage| == |old(usage)| + 1 && IsMeasured(rates.rows, usage[|old(usage)|], on, micro)
      ensures error.None? ==>
                var figure := usage[|old(usage)|];
                RecordFigure(old(usage), figure.month, figure.amount, figure.basis, reasonGiven) == Ok(usage)
    {
      var price := FindPrice(on, micro);
      if price.Err? {
        return Some(price.error);
      }
      var estimated := EstimateMinor(UsagePriced(price.value), Some(micro)).value;
      EstimateIsMeasured(rates.rows, on, micro, price.value, estimated);
      error := ReplaceUsage(MonthStart(on), estimated, Usage(micro, price.value), reasonGiven);
    }

    /** The price in force on the first of the month. */
    method FindPrice(on: Date, micro: int) returns (r: Result<int, CostError>)
      ensures IsPriced(rates.rows, today, on, micro, r)
      ensures r.Ok? ==> IsUnitPrice(r.value) && PricedOn(rates.rows, MonthStart(on), r.value)
    {
      MonthsInOrder(today, on);
      var month := MonthStart(on);
      if MonthStart(today).Key() < month.Key() {
        return Err(FutureMonth);
      }
      if micro < 0 || USAGE_MAX_MICRO < micro {
        return Err(BadUsage);
      }
      var rate := Effective(rates.rows, month);
      if rate.None? {
        return Err(NoRate);
      }
      var terms := rates.rows[rate.value].terms;
      if terms.FixedPrice? {
        return Err(FixedRate);
      }
      if !IsUnitPrice(terms.unitPrice) {
        return Err(BadPrice);
      }
      return Ok(terms.unitPrice);
    }

    /** The outgoing figure is closed before its successor is inserted. */
    method ReplaceUsage(month: Date, amount: int, basis: Usage, reasonGiven: bool) returns (error: Option<CostError>)
      requires Valid() && EstimateMinor(UsagePriced(basis.unitPrice), Some(basis.micro)) == Some(amount)
      modifies `usage
      ensures Valid() && Frozen(old(usage), usage)
      ensures RecordFigure(old(usage), month, amount, basis, reasonGiven)
              == if error.None? then Ok(usage) else Err(error.value)
      ensures error.Some? ==> usage == old(usage)
      ensures error == if !reasonGiven && ActiveFigure(old(usage), month).Some? then Some(ReasonRequired) else None
      ensures error.None? ==>
                |usage| == |old(usage)| + 1
                && usage[|old(usage)|]
                   == Figure(month, amount, basis, true, ActiveFigure(old(usage), month), None)
    {
      RecordKeepsFigures(usage, month, amount, basis, reasonGiven);
      var previous := ActiveFigure(usage, month);
      var id := |usage|;
      if previous.Some? {
        if !reasonGiven {
          return Some(ReasonRequired);
        }
        usage := usage[previous.value := usage[previous.value].(active := false, supersededBy := Some(id))];
      }
      usage := usage + [Figure(month, amount, basis, true, previous, None)];
      return None;
    }

    /** What a provider invoiced; independent of the estimate. */
    method RecordActual(on: Date, amount: int, reasonGiven: bool) returns (error: Option<CostError>)
      requires Valid()
      modifies `actual
      ensures Valid() && Frozen(old(actual), actual)
      ensures error.Some? ==> actual == old(actual)
      ensures InvoiceRefusal(today, old(actual), on, amount, reasonGiven, error)
      ensures error.None? ==>
                |actual| == |old(actual)| + 1 && actual[|old(actual)|].amount == amount && actual[|old(actual)|].active
                && actual[|old(actual)|].month == YMD(on.year, on.month, 1)
      ensures error.None? ==>
                0 <= amount && RecordFigure(old(actual), MonthStart(on), amount, (), reasonGiven) == Ok(actual)
    {
      MonthsInOrder(today, on);
      var month := MonthStart(on);
      if MonthStart(today).Key() < month.Key() {
        return Some(FutureMonth);
      }
      if amount < 0 {
        return Some(BadAmount);
      }
      RecordKeepsFigures(actual, month, amount, (), reasonGiven);
      var previous := ActiveFigure(actual, month);
      var id := |actual|;
      if previous.Some? {
        if !reasonGiven {
          return Some(ReasonRequired);
        }
        actual := actual[previous.value := actual[previous.value].(active := false, supersededBy := Some(id))];
      }
      actual := actual + [Figure(month, amount, (), true, previous, None)];
      return None;
    }
  }

  lemma {:induction false} OpenEndedKeepsTiles(rows: seq<Ranged<RateTerms>>, row: Ranged<RateTerms>)
    requires Tiled(rows) && row.to.None?
    ensures Create(rows, row).Ok? ==> Tiled(Create(rows, row).value)
    ensures Create(rows, row).Err? ==> Create(rows, row) == Err(Overlap)
  {
    CreateKeepsOrder(rows, row);
    ClashesOfOrdered(rows, row.from);
  }
}
