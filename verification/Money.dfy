/** Money and quantity primitives. Money is an integer count of minor units; a
    quantity is an integer count of thousandths; a rate is an integer count of basis
    points. A fraction is a numerator and a positive denominator. */
module Money {
  import opened Outcomes

  const QUANTITY_MAX_MILLI: int := 999_999_999_999
  const UNIT_PRICE_MINOR_MAX: int := 1_000_000_000_000
  const RATE_BP_SCALE: int := 10_000
  const BIGINT_MAX: int := 0x7FFF_FFFF_FFFF_FFFF

  function Abs(x: int): nat {
    if x < 0 then -x else x
  }

  function Pow10(n: nat): (p: int)
    ensures p >= 1
  {
    if n == 0 then 1 else 10 * Pow10(n - 1)
  }

  // ---- the one rounding rule ---------------------------------------------------

  /** `num / den` rounded to the nearest integer, a tie going away from zero. */
  function RoundHalfUp(num: int, den: int): int
    requires 0 < den
  {
    if 0 <= num then (2 * num + den) / (2 * den) else -((-2 * num + den) / (2 * den))
  }

  /** What half-up rounding means: within half a unit, and on a tie the candidate
      further from zero. */
  predicate IsHalfUp(num: int, den: int, r: int) {
    if 0 <= num then 2 * num - den < 2 * (r * den) <= 2 * num + den
    else 2 * num - den <= 2 * (r * den) < 2 * num + den
  }

  lemma FloorBounds(a: int, b: int)
    requires 0 < b
    ensures a / b * b <= a < a / b * b + b
  {
  }

  lemma {:induction false} ProductSign(x: nat, d: nat)
    ensures 0 <= x * d
  {
    if 0 < x {
      ProductSign(x - 1, d);
      assert x * d == (x - 1) * d + d;
    }
  }

  lemma MultipleOrder(a: int, b: int, d: int)
    requires 0 < d && a < b
    ensures a * d + d <= b * d
  {
    ProductSign(b - a - 1, d);
    assert (b - a - 1) * d == b * d - a * d - d;
  }

  /** `RoundHalfUp` is the one and only function with that meaning. */
  lemma RoundHalfUpIsNearest(num: int, den: int, r: int)
    requires 0 < den
    ensures r == RoundHalfUp(num, den) <==> IsHalfUp(num, den, r)
  {
    var q := RoundHalfUp(num, den);
    FloorBounds(2 * Abs(num) + den, 2 * den);
    var f := (2 * Abs(num) + den) / (2 * den);
    assert f * (2 * den) == 2 * (f * den);
    assert (-f) * den == -(f * den);
    if r < q {
      MultipleOrder(r, q, den);
    } else if q < r {
      MultipleOrder(q, r, den);
    }
  }

  /** Rounding a negated amount negates the result, so a reversal gives back exactly
      what was earned. */
  lemma RoundingIsSymmetric(num: int, den: int)
    requires 0 < den
    ensures RoundHalfUp(-num, den) == -RoundHalfUp(num, den)
  {
    if num == 0 {
      RoundHalfUpIsNearest(0, den, 0);
    }
  }

  /** Rounding moves a fraction by at most half a unit. */
  lemma RoundingError(num: int, den: int)
    requires 0 < den
    ensures 2 * Abs(RoundHalfUp(num, den) * den - num) <= den
  {
    RoundHalfUpIsNearest(num, den, RoundHalfUp(num, den));
  }

  // ---- quantities and charges --------------------------------------------------

  /** A finite decimal: `coefficient / 10^scale`. */
  datatype Decimal = Decimal(coefficient: int, scale: nat)

  datatype QuantityError = Negative | TooLarge | TooPrecise

  /** The quantity in thousandths, or why it is refused. */
  function QuantizeQuantity(q: Decimal): (r: Result<int, QuantityError>)
    ensures r.Ok? <==> 0 <= q.coefficient && q.coefficient * 1000 <= QUANTITY_MAX_MILLI * Pow10(q.scale)
                       && q.coefficient * 1000 % Pow10(q.scale) == 0
    ensures r == Err(Negative) <==> q.coefficient < 0
    ensures r == Err(TooLarge) <==> 0 <= q.coefficient && 999_999_999_999 * Pow10(q.scale) < q.coefficient * 1000
    ensures r.Ok? ==> 0 <= r.value <= QUANTITY_MAX_MILLI && r.value * Pow10(q.scale) == q.coefficient * 1000
  {
    var one := Pow10(q.scale);
    if q.coefficient < 0 then Err(Negative)
    else if QUANTITY_MAX_MILLI * one < q.coefficient * 1000 then Err(TooLarge)
    else if q.coefficient * 1000 % one != 0 then Err(TooPrecise)
    else
      var milli := q.coefficient * 1000 / one;
      assert milli * one == q.coefficient * 1000;
      assert milli <= QUANTITY_MAX_MILLI by {
        if QUANTITY_MAX_MILLI < milli { MultipleOrder(QUANTITY_MAX_MILLI, milli, one); }
      }
      assert 0 <= milli by {
        if milli < 0 { MultipleOrder(milli, 0, one); }
      }
      Ok(milli)
  }

  predicate IsQuantity(milli: int) {
    0 <= milli <= QUANTITY_MAX_MILLI
  }

  predicate IsUnitPrice(price: int) {
    0 <= price <= UNIT_PRICE_MINOR_MAX
  }

  predicate IsRate(rate: int) {
    0 <= rate <= RATE_BP_SCALE
  }

  /** The single rounding point of a bill: quantity times unit price. */
  function ChargeMinor(milli: int, price: int): int {
    RoundHalfUp(milli * price, 1000)
  }

  /** The largest possible charge: the product stays below 10^24, far inside the 50-digit
      decimal context, but the charge itself reaches 10^21 - 10^9 and does not fit BIGINT. */
  lemma ChargeBound(milli: int, price: int)
    requires IsQuantity(milli) && IsUnitPrice(price)
    ensures 0 <= milli * price < 1_000_000_000_000_000_000_000_000
    ensures 0 <= ChargeMinor(milli, price) <= ChargeMinor(QUANTITY_MAX_MILLI, UNIT_PRICE_MINOR_MAX)
    ensures ChargeMinor(QUANTITY_MAX_MILLI, UNIT_PRICE_MINOR_MAX) == 999_999_999_999_000_000_000
    ensures BIGINT_MAX < ChargeMinor(QUANTITY_MAX_MILLI, UNIT_PRICE_MINOR_MAX)
  {
    ProductSign(milli, price);
    ProductSign(milli, UNIT_PRICE_MINOR_MAX - price);
    assert milli * (UNIT_PRICE_MINOR_MAX - price) == milli * UNIT_PRICE_MINOR_MAX - milli * price;
  }

  /** Exactly which charges fit a BIGINT column. */
  lemma ChargeFitsExactly(milli: int, price: int)
    requires IsQuantity(milli) && IsUnitPrice(price)
    ensures ChargeMinor(milli, price) <= BIGINT_MAX <==> milli * price < 1000 * BIGINT_MAX + 500
  {
    ProductSign(milli, price);
    RoundsUpTo(milli * price, 1000, BIGINT_MAX);
  }

  /** A non-negative fraction rounds to at most `m` exactly when it is below `m` and a half. */
  lemma RoundsUpTo(num: int, den: int, m: int)
    requires 0 <= num && 0 < den
    ensures RoundHalfUp(num, den) <= m <==> 2 * num < 2 * (m * den) + den
  {
    var r := RoundHalfUp(num, den);
    RoundHalfUpIsNearest(num, den, r);
    if r <= m {
      if r < m { MultipleOrder(r, m, den); }
    } else {
      MultipleOrder(m, r, den);
    }
  }

  // ---- rates -------------------------------------------------------------------

  /** Commission on a base: the same rounding rule at basis-point scale. The base may
      be negative, for a reversal. */
  function ApplyRateBp(base: int, rate: int): int {
    RoundHalfUp(base * rate, RATE_BP_SCALE)
  }

  lemma RateReverses(base: int, rate: int)
    ensures ApplyRateBp(-base, rate) == -ApplyRateBp(base, rate)
  {
    RoundingIsSymmetric(base * rate, RATE_BP_SCALE);
    assert (-base) * rate == -(base * rate);
  }

  lemma RateError(base: int, rate: int)
    ensures Abs(RATE_BP_SCALE * ApplyRateBp(base, rate) - rate * base) <= 5000
  {
    RoundingError(base * rate, RATE_BP_SCALE);
  }
}
