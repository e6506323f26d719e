/** Rendering an amount for a person to read, and the proof that the rendering loses
    nothing: it has a left inverse for every amount below 10^28 in magnitude. */
module MoneyFormat {
  import opened Outcomes
  import opened Money

  datatype FormatError = BadExponent

  function DigitChar(d: nat): (c: char)
    requires d < 10
    ensures IsDigit(c) && DigitValue(c) == d
  {
    '0' + d as char
  }

  predicate IsDigit(c: char) {
    '0' <= c <= '9'
  }

  function DigitValue(c: char): (d: int)
    requires IsDigit(c)
    ensures 0 <= d < 10
  {
    (c as int) - ('0' as int)
  }

  ghost predicate AllDigits(s: string) {
    forall i :: 0 <= i < |s| ==> IsDigit(s[i])
  }

  // ---- rendering ---------------------------------------------------------------

  /** The decimal numeral of `n`, without leading zeros. */
  function Digits(n: nat): (s: string)
    ensures AllDigits(s) && 0 < |s|
  {
    if n < 10 then [DigitChar(n)] else Digits(n / 10) + [DigitChar(n % 10)]
  }

  /** `n` without its last `k` decimal digits. */
  function DropDigits(n: nat, k: nat): nat {
    if k == 0 then n else DropDigits(n / 10, k - 1)
  }

  /** The last `k` decimal digits of `n`, zeros included. */
  function FixedDigits(n: nat, k: nat): (s: string)
    ensures AllDigits(s) && |s| == k
  {
    if k == 0 then "" else FixedDigits(n / 10, k - 1) + [DigitChar(n % 10)]
  }

  /** Thousands separators, counted from the right. */
  function Group(s: string): string {
    if |s| <= 3 then s else Group(s[..|s| - 3]) + "," + s[|s| - 3..]
  }

  lemma RemainderBelow(n: nat, unit: int)
    requires 0 < unit
    ensures 0 <= n % unit <= n
  {
    FloorBounds(n, unit);
    if n / unit < 0 {
      MultipleOrder(n / unit, 0, unit);
    } else {
      ProductSign(n / unit, unit);
    }
  }

  function DigitCount(n: nat): nat {
    if n < 10 then 1 else 1 + DigitCount(n / 10)
  }

  /** A decimal context rounds a result to its precision, half to even. */
  function RoundToPrecision(n: nat, precision: nat): nat {
    var count := DigitCount(n);
    if count <= precision then n
    else
      var unit := Pow10(count - precision);
      var q, r := n / unit, n % unit;
      assert r <= n by { RemainderBelow(n, unit); }
      if 2 * r < unit || (2 * r == unit && q % 2 == 0) then n - r else n - r + unit
  }

  /** The magnitude that is printed. Scaling happens in a 50-digit context, but the
      absolute value is taken afterwards, in the ambient 28-digit one. */
  function PrintedMagnitude(amount: int): nat {
    RoundToPrecision(RoundToPrecision(Abs(amount), 50), 28)
  }

  /** The nearest multiple of the unit; of two, the even one. */
  ghost predicate IsHalfEven(n: nat, unit: int, x: int) {
    exists k: int :: x == k * unit && 2 * Abs(x - n) <= unit && (2 * Abs(x - n) == unit ==> k % 2 == 0)
  }

  lemma RoundedTo(n: nat, unit: int, q: int, r: int, x: int)
    requires 0 < unit && 0 <= r < unit && n == q * unit + r
    requires x == if 2 * r < unit || (2 * r == unit && q % 2 == 0) then n - r else n - r + unit
    ensures IsHalfEven(n, unit, x)
  {
    if 2 * r < unit || (2 * r == unit && q % 2 == 0) {
      assert x == q * unit;
    } else {
      assert (q + 1) * unit == q * unit + unit;
      assert x == (q + 1) * unit;
    }
  }

  lemma QuotientAndRemainder(n: int, unit: int)
    requires 0 < unit
    ensures 0 <= n % unit < unit && n == n / unit * unit + n % unit
  {
  }

  lemma RoundsAtUnit(n: nat, precision: nat, unit: int, q: int, r: int)
    requires precision < DigitCount(n) && unit == Pow10(DigitCount(n) - precision) && q == n / unit && r == n % unit
    ensures RoundToPrecision(n, precision)
            == if 2 * r < unit || (2 * r == unit && q % 2 == 0) then n - r else n - r + unit
  {
  }

  /** The digits beyond the precision are rounded away, half to even. */
  lemma RoundsHalfEven(n: nat, precision: nat)
    ensures if DigitCount(n) <= precision then RoundToPrecision(n, precision) == n
            else IsHalfEven(n, Pow10(DigitCount(n) - precision), RoundToPrecision(n, precision))
  {
    if precision < DigitCount(n) {
      var unit := Pow10(DigitCount(n) - precision);
      RoundsAtUnit(n, precision, unit, n / unit, n % unit);
      QuotientAndRemainder(n, unit);
      RoundedTo(n, unit, n / unit, n % unit, RoundToPrecision(n, precision));
    }
  }

  function Number(n: nat, exponent: nat): string {
    var whole := Group(Digits(DropDigits(n, exponent)));
    if exponent == 0 then whole else whole + "." + FixedDigits(n, exponent)
  }

  function FormatMinor(amount: int, currency: string, exponent: int): Result<string, FormatError> {
    if !(0 <= exponent <= 4) then Err(BadExponent)
    else
      var sign := if amount < 0 then "-" else "";
      Ok(currency + " " + (sign + Number(PrintedMagnitude(amount), exponent)))
  }

  // ---- reading back ------------------------------------------------------------

  /** Keep the digits of a string. */
  function Strip(s: string): (r: string)
    ensures AllDigits(r)
  {
    if s == "" then ""
    else Strip(s[..|s| - 1]) + if IsDigit(s[|s| - 1]) then [s[|s| - 1]] else ""
  }

  function ReadDigits(s: string): nat
    requires AllDigits(s)
  {
    if s == "" then 0 else 10 * ReadDigits(s[..|s| - 1]) + DigitValue(s[|s| - 1])
  }

  /** Read a rendered amount back: drop the currency, note the sign, keep the digits. */
  function ParseMinor(s: string, currency: string): int {
    if |s| < |currency| + 2 then 0
    else
      var body := s[|currency| + 1..];
      var magnitude: int := ReadDigits(Strip(body));
      if body[0] == '-' then -magnitude else magnitude
  }

  lemma {:induction false} StripAppend(s: string, t: string)
    ensures Strip(s + t) == Strip(s) + Strip(t)
  {
    if t == "" {
      assert s + t == s;
    } else {
      StripAppend(s, t[..|t| - 1]);
      assert (s + t)[..|s + t| - 1] == s + t[..|t| - 1];
    }
  }

  lemma {:induction false} StripDigits(s: string)
    requires AllDigits(s)
    ensures Strip(s) == s
  {
    if s != "" {
      var head, last := s[..|s| - 1], s[|s| - 1];
      StripDigits(head);
      StripLast(head, last);
      assert s == head + [last];
    }
  }

  lemma StripLast(head: string, last: char)
    requires IsDigit(last)
    ensures Strip(head + [last]) == Strip(head) + [last]
  {
    assert (head + [last])[..|head|] == head;
  }

  lemma {:induction false} StripGroup(s: string)
    requires AllDigits(s)
    ensures Strip(Group(s)) == s
  {
    if |s| <= 3 {
      StripDigits(s);
    } else {
      var head, last := s[..|s| - 3], s[|s| - 3..];
      StripGroup(head);
      StripDigits(last);
      StripAppend(Group(head) + ",", last);
      StripAppend(Group(head), ",");
      assert Strip(",") == "";
    }
  }

  lemma TenTimes(x: int, y: int)
    ensures x * (10 * y) == 10 * (x * y)
  {
  }

  lemma {:induction false} ReadAppend(s: string, t: string)
    requires AllDigits(s) && AllDigits(t)
    ensures ReadDigits(s + t) == ReadDigits(s) * Pow10(|t|) + ReadDigits(t)
  {
    if t == "" {
      assert s + t == s;
    } else {
      var t' := t[..|t| - 1];
      ReadAppend(s, t');
      assert (s + t)[..|s + t| - 1] == s + t';
      TenTimes(ReadDigits(s), Pow10(|t'|));
    }
  }

  lemma {:induction false} ReadNumeral(n: nat)
    ensures ReadDigits(Digits(n)) == n
  {
    if 10 <= n {
      ReadNumeral(n / 10);
      assert Digits(n)[..|Digits(n)| - 1] == Digits(n / 10);
    }
  }

  lemma {:induction false} ReadFixed(n: nat, k: nat)
    ensures DropDigits(n, k) * Pow10(k) + ReadDigits(FixedDigits(n, k)) == n
  {
    if 0 < k {
      ReadFixed(n / 10, k - 1);
      var s := FixedDigits(n, k);
      assert s[..|s| - 1] == FixedDigits(n / 10, k - 1);
      var w := DropDigits(n / 10, k - 1);
      TenTimes(w, Pow10(k - 1));
    }
  }

  lemma RemainderIs(n: int, d: int, q: int, r: int)
    requires 0 < d && 0 <= r < d && n == q * d + r
    ensures n % d == r && n / d == q
  {
    var q', r' := n / d, n % d;
    assert n == q' * d + r';
    if q < q' {
      MultipleOrder(q, q', d);
    } else if q' < q {
      MultipleOrder(q', q, d);
    }
  }

  lemma {:induction false} DigitCountBound(n: nat, k: nat)
    requires n < Pow10(k) && 0 < k
    ensures DigitCount(n) <= k
  {
    if 10 <= n {
      DigitCountBound(n / 10, k - 1);
    }
  }

  /** At most `precision` significant digits: the digits beyond are zeros. */
  predicate Fits(n: nat, precision: nat) {
    DigitCount(n) <= precision || n % Pow10(DigitCount(n) - precision) == 0
  }

  /** A rounding changes nothing exactly when the number already fits the precision. */
  lemma RoundsExactly(n: nat, precision: nat)
    ensures RoundToPrecision(n, precision) == n <==> Fits(n, precision)
  {
  }

  lemma {:induction false} DigitCountReaches(n: nat, k: nat)
    ensures Pow10(k) <= n ==> k + 1 <= DigitCount(n)
    ensures 0 < k && k + 1 <= DigitCount(n) ==> Pow10(k) <= n
  {
    if 10 <= n && 0 < k {
      DigitCountReaches(n / 10, k - 1);
    }
  }

  lemma {:induction false} Pow10Sum(a: nat, b: nat)
    ensures Pow10(a + b) == Pow10(a) * Pow10(b)
  {
    if 0 < a {
      Pow10Sum(a - 1, b);
      TenTimes(Pow10(b), Pow10(a - 1));
    }
  }

  /** A multiple of a higher power of ten is one of every lower power. */
  lemma LowerPowerDivides(n: nat, a: nat, b: nat)
    requires a <= b && n % Pow10(b) == 0
    ensures n % Pow10(a) == 0
  {
    Pow10Sum(b - a, a);
    LowerFactorDivides(n, Pow10(b - a), Pow10(a), Pow10(b));
  }

  lemma LowerFactorDivides(n: int, x: int, y: int, z: int)
    requires 0 < y && 0 < z && z == x * y && n % z == 0
    ensures n % y == 0
  {
    FloorBounds(n, z);
    MultipleOfMultiple(n, n / z, x, y);
  }

  lemma MultipleOfMultiple(n: int, q: int, x: int, y: int)
    requires 0 < y && n == q * (x * y)
    ensures n % y == 0
  {
    assert q * (x * y) == (q * x) * y;
    RemainderIs(n, y, q * x, 0);
  }

  /** Cutting the remainder off leaves a multiple, and so does adding a unit to it. */
  lemma MultiplesAround(n: nat, unit: int)
    requires 0 < unit
    ensures n - n % unit == n / unit * unit
    ensures (n - n % unit) % unit == 0 && (n - n % unit + unit) % unit == 0
  {
    var q, r := n / unit, n % unit;
    FloorBounds(n, unit);
    assert (q + 1) * unit == q * unit + unit;
    RemainderIs(n - r, unit, q, 0);
    RemainderIs(n - r + unit, unit, q + 1, 0);
  }

  lemma RoundedIsMultiple(n: nat, precision: nat)
    requires precision < DigitCount(n)
    ensures RoundToPrecision(n, precision) % Pow10(DigitCount(n) - precision) == 0
    ensures n / Pow10(DigitCount(n) - precision) * Pow10(DigitCount(n) - precision) <= RoundToPrecision(n, precision)
  {
    MultiplesAround(n, Pow10(DigitCount(n) - precision));
  }

  lemma FloorReaches(n: nat, unit: int, p: int)
    requires 0 < unit && p * unit <= n
    ensures p * unit <= n / unit * unit
  {
    var q := n / unit;
    FloorBounds(n, unit);
    if q < p {
      MultipleOrder(q, p, unit);
    } else if p < q {
      MultipleOrder(p, q, unit);
    }
  }

  /** A rounding that cuts digits leaves the number no shorter. */
  lemma RoundedIsNoShorter(n: nat, precision: nat)
    requires 0 < precision < DigitCount(n)
    ensures DigitCount(n) <= DigitCount(RoundToPrecision(n, precision))
  {
    var count := DigitCount(n);
    var unit := Pow10(count - precision);
    DigitCountReaches(n, count - 1);
    Pow10Sum(precision - 1, count - precision);
    FloorReaches(n, unit, Pow10(precision - 1));
    RoundedIsMultiple(n, precision);
    DigitCountReaches(RoundToPrecision(n, precision), count - 1);
  }

  /** Rounding to a wide and then to a narrow precision changes nothing exactly when the
      number fits the narrow one. */
  lemma TwoRoundingsExactly(n: nat, wide: nat, narrow: nat)
    requires 0 < narrow <= wide
    ensures RoundToPrecision(RoundToPrecision(n, wide), narrow) == n <==> Fits(n, narrow)
  {
    var count, m := DigitCount(n), RoundToPrecision(n, wide);
    RoundsExactly(n, wide);
    RoundsExactly(n, narrow);
    if wide < count {
      RoundedIsNoShorter(n, wide);
      RoundedIsMultiple(m, narrow);
      LowerPowerDivides(RoundToPrecision(m, narrow), count - narrow, DigitCount(m) - narrow);
      if Fits(n, narrow) {
        LowerPowerDivides(n, count - wide, count - narrow);
      }
    }
  }

  /** An amount is printed exactly when its magnitude has at most 28 significant digits. */
  lemma PrintedExactly(amount: int)
    ensures PrintedMagnitude(amount) == Abs(amount) <==> Fits(Abs(amount), 28)
    ensures Abs(amount) < Pow10(28) ==> Fits(Abs(amount), 28)
  {
    TwoRoundingsExactly(Abs(amount), 50, 28);
    if Abs(amount) < Pow10(28) {
      DigitCountBound(Abs(amount), 28);
    }
  }

  lemma ReadNumber(n: nat, exponent: nat)
    ensures ReadDigits(Strip(Number(n, exponent))) == n
    ensures 0 < |Number(n, exponent)| && IsDigit(Number(n, exponent)[0])
  {
    var w := DropDigits(n, exponent);
    var whole, fraction := Digits(w), FixedDigits(n, exponent);
    GroupShape(whole);
    StripGroup(whole);
    ReadNumeral(w);
    if 0 < exponent {
      StripDigits(fraction);
      StripAppend(Group(whole) + ".", fraction);
      StripAppend(Group(whole), ".");
      assert Strip(".") == "";
      assert whole + "" == whole;
      ReadAppend(whole, fraction);
      ReadFixed(n, exponent);
    }
  }

  lemma ParseRendered(n: nat, sign: string, currency: string, exponent: int)
    requires 0 <= exponent && (sign == "" || sign == "-")
    ensures ParseMinor(currency + " " + (sign + Number(n, exponent)), currency) == if sign == "-" then 0 - n else n
  {
    ReadNumber(n, exponent);
    var number := Number(n, exponent);
    var body := sign + number;
    var s := currency + " " + body;
    assert s[|currency| + 1..] == body;
    if sign == "-" {
      StripAppend("-", number);
      assert Strip("-") == "";
      assert "" + Strip(number) == Strip(number);
    } else {
      assert body == number;
    }
  }

  /** The rendering has a left inverse on exactly the amounts of at most 28 significant
      digits, which include every amount below 10^28. */
  lemma FormatRoundTrip(amount: int, currency: string, exponent: int)
    requires 0 <= exponent <= 4
    ensures FormatMinor(amount, currency, exponent).Ok?
    ensures ParseMinor(FormatMinor(amount, currency, exponent).value, currency) == amount <==> Fits(Abs(amount), 28)
    ensures Abs(amount) < Pow10(28) ==> Fits(Abs(amount), 28)
  {
    PrintedExactly(amount);
    ParseRendered(PrintedMagnitude(amount), if amount < 0 then "-" else "", currency, exponent);
  }

  /** Distinct amounts of at most 28 significant digits never render alike in one
      currency. */
  lemma FormatIsInjective(a: int, b: int, currency: string, exponent: int)
    requires 0 <= exponent <= 4 && Fits(Abs(a), 28) && Fits(Abs(b), 28)
    requires FormatMinor(a, currency, exponent) == FormatMinor(b, currency, exponent)
    ensures a == b
  {
    FormatRoundTrip(a, currency, exponent);
    FormatRoundTrip(b, currency, exponent);
  }

  /** The bound is the exact one: 10^28 and its successor print the same. */
  lemma FormatCollidesAtTheBound(limit: int, digits: nat, currency: string, exponent: int)
    requires 0 <= exponent <= 4 && digits == 28 && limit == Pow10(digits)
    ensures FormatMinor(limit, currency, exponent) == FormatMinor(limit + 1, currency, exponent)
  {
    PrintsThePower(limit, digits, limit);
    PrintsThePower(limit, digits, limit + 1);
    SameMagnitudeSameText(limit, limit + 1, currency, exponent);
  }

  lemma PrintsThePower(limit: int, digits: nat, amount: int)
    requires digits == 28 && limit == Pow10(digits) && limit <= amount <= limit + 1
    ensures PrintedMagnitude(amount) == limit
  {
    RoundsToThePower(digits - 1, amount - limit);
  }

  lemma SameMagnitudeSameText(a: int, b: int, currency: string, exponent: int)
    requires 0 <= a && 0 <= b && PrintedMagnitude(a) == PrintedMagnitude(b)
    ensures FormatMinor(a, currency, exponent) == FormatMinor(b, currency, exponent)
  {
  }

  /** At one digit too many, the last digit 0 or 1 is rounded away. */
  lemma RoundsToThePower(k: nat, d: nat)
    requires d <= 1
    ensures DigitCount(Pow10(k + 1) + d) == k + 2
    ensures RoundToPrecision(Pow10(k + 1) + d, k + 1) == Pow10(k + 1)
  {
    DigitCountOfPower(k + 1);
    DigitCountOfSuccessor(k + 1);
    assert Pow10(1) == 10;
    RemainderIs(Pow10(k + 1) + d, 10, Pow10(k), d);
  }

  lemma {:induction false} DigitCountOfPower(k: nat)
    ensures DigitCount(Pow10(k)) == k + 1
  {
    if 0 < k {
      DigitCountOfPower(k - 1);
    }
  }

  lemma DigitCountOfSuccessor(k: nat)
    requires 0 < k
    ensures DigitCount(Pow10(k) + 1) == k + 1
  {
    DigitCountOfPower(k - 1);
    assert (10 * Pow10(k - 1) + 1) / 10 == Pow10(k - 1);
  }

  /** Grouping inserts a comma before each group of three digits and nowhere else,
      never in front. */
  ghost predicate Grouped(g: string) {
    0 < |g| && IsDigit(g[0])
    && forall i :: 0 <= i < |g| ==> if (|g| - i) % 4 == 0 then g[i] == ',' else IsDigit(g[i])
  }

  lemma {:induction false} GroupShape(s: string)
    requires AllDigits(s) && 0 < |s|
    ensures Grouped(Group(s))
  {
    if 3 < |s| {
      var head, last := s[..|s| - 3], s[|s| - 3..];
      GroupShape(head);
      var h, g := Group(head), Group(s);
      assert g == h + "," + last;
      forall i | 0 <= i < |g| ensures if (|g| - i) % 4 == 0 then g[i] == ',' else IsDigit(g[i]) {
        GroupShapeAt(h, last, i);
      }
    }
  }

  lemma GroupShapeAt(h: string, last: string, i: nat)
    requires Grouped(h) && AllDigits(last) && |last| == 3 && i < |h| + 4
    ensures var g := h + "," + last;
            if (|g| - i) % 4 == 0 then g[i] == ',' else IsDigit(g[i])
  {
    var g := h + "," + last;
    if i < |h| {
      assert g[i] == h[i] && (|g| - i) % 4 == (|h| - i) % 4;
    } else if i > |h| {
      assert g[i] == last[i - |h| - 1];
    }
  }

  /** The printed number: a grouped whole part, then a full stop and exactly `exponent`
      fraction digits when the currency has any. */
  lemma NumberShape(n: nat, exponent: nat)
    ensures var s := Number(n, exponent);
            var w := |s| - if exponent == 0 then 0 else exponent + 1;
            0 < w && Grouped(s[..w]) && (0 < exponent ==> s[w] == '.' && AllDigits(s[w + 1..]))
  {
    var whole, fraction := Digits(DropDigits(n, exponent)), FixedDigits(n, exponent);
    GroupShape(whole);
    var s := Number(n, exponent);
    if exponent == 0 {
      assert s[..|s|] == Group(whole);
    } else {
      var w := |Group(whole)|;
      assert s[..w] == Group(whole) && s[w + 1..] == fraction;
    }
  }
}
