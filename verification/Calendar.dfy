/** Calendar dates and the monthly billing period. Dates are triples in the
    proleptic Gregorian calendar; `Key` is the sort key every comparison uses. */
module Calendar {
  datatype YearMonthDay = YMD(year: int, month: int, day: int) {
    function Key(): int {
      year * 10000 + month * 100 + day
    }
  }

  predicate IsLeap(year: int) {
    year % 4 == 0 && (year % 100 != 0 || year % 400 == 0)
  }

  function DaysInMonth(year: int, month: int): int {
    if month == 2 then (if IsLeap(year) then 29 else 28)
    else if month in {4, 6, 9, 11} then 30
    else 31
  }

  predicate IsDate(d: YearMonthDay) {
    1 <= d.month <= 12 && 1 <= d.day <= DaysInMonth(d.year, d.month)
  }

  type Date = d: YearMonthDay | IsDate(d) witness YMD(1, 1, 1)

  lemma MonthLengths(year: int, month: int)
    requires 1 <= month <= 12
    ensures DaysInMonth(year, month)
            == [31, if IsLeap(year) then 29 else 28, 31, 30, 31, 30, 31, 31, 30, 31, 30, 31][month - 1]
  {
  }

  // ---- day arithmetic ----------------------------------------------------------

  function NextDay(d: Date): Date {
    if d.day < DaysInMonth(d.year, d.month) then YMD(d.year, d.month, d.day + 1)
    else if d.month < 12 then YMD(d.year, d.month + 1, 1)
    else YMD(d.year + 1, 1, 1)
  }

  function PrevDay(d: Date): Date {
    if 1 < d.day then YMD(d.year, d.month, d.day - 1)
    else if 1 < d.month then YMD(d.year, d.month - 1, DaysInMonth(d.year, d.month - 1))
    else YMD(d.year - 1, 12, 31)
  }

  /** Days before 1 January of `year`, counted from 1 January of year 1. */
  function DaysBeforeYear(year: int): int {
    (year - 1) * 365 + (year - 1) / 4 - (year - 1) / 100 + (year - 1) / 400
  }

  function DaysBeforeMonth(year: int, month: int): int
    requires 1 <= month <= 12
  {
    if month == 1 then 0 else DaysBeforeMonth(year, month - 1) + DaysInMonth(year, month - 1)
  }

  /** The day number of a date: 1 January of year 1 is day 1. */
  function Ordinal(d: Date): int {
    DaysBeforeYear(d.year) + DaysBeforeMonth(d.year, d.month) + d.day
  }

  lemma MonthTable(year: int)
    ensures DaysBeforeMonth(year, 12) + 31 == if IsLeap(year) then 366 else 365
  {
    assert DaysBeforeMonth(year, 2) == 31;
    assert DaysBeforeMonth(year, 3) == 31 + DaysInMonth(year, 2);
    assert DaysBeforeMonth(year, 5) == DaysBeforeMonth(year, 3) + 61;
    assert DaysBeforeMonth(year, 7) == DaysBeforeMonth(year, 5) + 61;
    assert DaysBeforeMonth(year, 9) == DaysBeforeMonth(year, 7) + 62;
    assert DaysBeforeMonth(year, 11) == DaysBeforeMonth(year, 9) + 61;
  }

  lemma YearLength(year: int)
    ensures DaysBeforeYear(year + 1) - DaysBeforeYear(year) == if IsLeap(year) then 366 else 365
  {
    FourthYears(year);
    HundredthYears(year);
    FourHundredthYears(year);
    LeapRules(year);
  }

  lemma FourthYears(year: int)
    ensures year / 4 - (year - 1) / 4 == if year % 4 == 0 then 1 else 0
  {
    var q, r := year / 4, year % 4;
    if r == 0 {
      assert year - 1 == 4 * (q - 1) + 3;
      assert (year - 1) / 4 == q - 1;
    } else {
      assert year - 1 == 4 * q + (r - 1);
      assert (year - 1) / 4 == q;
    }
  }

  lemma HundredthYears(year: int)
    ensures year / 100 - (year - 1) / 100 == if year % 100 == 0 then 1 else 0
  {
    var q, r := year / 100, year % 100;
    if r == 0 {
      assert year - 1 == 100 * (q - 1) + 99;
      assert (year - 1) / 100 == q - 1;
    } else {
      assert year - 1 == 100 * q + (r - 1);
      assert (year - 1) / 100 == q;
    }
  }

  lemma FourHundredthYears(year: int)
    ensures year / 400 - (year - 1) / 400 == if year % 400 == 0 then 1 else 0
  {
    var q, r := year / 400, year % 400;
    if r == 0 {
      assert year - 1 == 400 * (q - 1) + 399;
      assert (year - 1) / 400 == q - 1;
    } else {
      assert year - 1 == 400 * q + (r - 1);
      assert (year - 1) / 400 == q;
    }
  }

  lemma LeapRules(year: int)
    ensures year % 100 == 0 ==> year % 4 == 0
    ensures year % 400 == 0 ==> year % 100 == 0
  {
    if year % 100 == 0 {
      CenturiesAreFours(year, year / 100);
    }
    if year % 400 == 0 {
      FourCenturiesAreCenturies(year, year / 400);
    }
  }

  lemma CenturiesAreFours(year: int, q: int)
    requires year == 100 * q
    ensures year % 4 == 0
  {
    var m := 25 * q;
    assert year == 4 * m;
  }

  lemma FourCenturiesAreCenturies(year: int, q: int)
    requires year == 400 * q
    ensures year % 100 == 0
  {
    var m := 4 * q;
    assert year == 100 * m;
  }

  /** `NextDay` is one day later on the day-number line, so the case analysis above
      really is Gregorian day arithmetic. */
  lemma NextDayIsOneLater(d: Date)
    ensures Ordinal(NextDay(d)) == Ordinal(d) + 1
  {
    MonthTable(d.year);
    YearLength(d.year);
  }

  lemma NextThenPrev(d: Date)
    ensures PrevDay(NextDay(d)) == d && NextDay(PrevDay(d)) == d
  {
  }

  predicate Earlier(a: Date, b: Date) {
    a.year < b.year || (a.year == b.year && (a.month < b.month || (a.month == b.month && a.day < b.day)))
  }

  /** Comparing keys is comparing (year, month, day) lexicographically. */
  lemma KeyIsLexicographic(a: Date, b: Date)
    ensures a.Key() < b.Key() <==> Earlier(a, b)
    ensures a.Key() == b.Key() <==> a == b
  {
    if a.year < b.year {
      assert (b.year - a.year) * 10000 >= 10000;
    } else if b.year < a.year {
      assert (a.year - b.year) * 10000 >= 10000;
    }
  }

  /** No date lies strictly between the day before `d` and `d`. */
  lemma NoDateBetween(d: Date, x: Date)
    ensures x.Key() < d.Key() <==> x.Key() <= PrevDay(d).Key()
  {
    KeyIsLexicographic(x, d);
    KeyIsLexicographic(PrevDay(d), x);
  }

  // ---- the monthly period ------------------------------------------------------

  function AddOneMonth(d: Date): (r: Date)
    requires d.day <= 28
  {
    if d.month == 12 then YMD(d.year + 1, 1, d.day) else YMD(d.year, d.month + 1, d.day)
  }

  datatype Period = Period(start: Date, end: Date) {
    predicate Contains(d: Date) {
      start.Key() <= d.Key() <= end.Key()
    }
  }

  function PeriodStart(startDay: int, on: Date): (r: Date)
    requires 1 <= startDay <= 28
  {
    if on.day >= startDay then YMD(on.year, on.month, startDay)
    else
      var previous := PrevDay(YMD(on.year, on.month, 1));
      YMD(previous.year, previous.month, startDay)
  }

  function PeriodBounds(startDay: int, on: Date): Period
    requires 1 <= startDay <= 28
  {
    var start := PeriodStart(startDay, on);
    Period(start, PrevDay(AddOneMonth(start)))
  }

  /** Every date lies in its own period. */
  lemma PeriodContainsItsDate(startDay: int, on: Date)
    requires 1 <= startDay <= 28
    ensures PeriodBounds(startDay, on).Contains(on)
  {
    var start := PeriodStart(startDay, on);
    NoDateBetween(AddOneMonth(start), on);
    KeyIsLexicographic(on, start);
    KeyIsLexicographic(on, AddOneMonth(start));
  }

  /** The period of `on` read month by month: the dates from its start up to, but not
      including, the same day one month later. */
  lemma PeriodAsHalfOpen(startDay: int, on: Date, x: Date)
    requires 1 <= startDay <= 28
    ensures var p := PeriodBounds(startDay, on);
            p.Contains(x) <==> !Earlier(x, p.start) && Earlier(x, AddOneMonth(p.start))
  {
    var p := PeriodBounds(startDay, on);
    NoDateBetween(AddOneMonth(p.start), x);
    KeyIsLexicographic(x, p.start);
    KeyIsLexicographic(x, AddOneMonth(p.start));
  }

  /** A date lies in a period exactly when the period is its own. */
  lemma MembersShareThePeriod(startDay: int, a: Date, b: Date)
    requires 1 <= startDay <= 28
    ensures PeriodBounds(startDay, a).Contains(b) <==> PeriodBounds(startDay, a) == PeriodBounds(startDay, b)
  {
    PeriodAsHalfOpen(startDay, a, b);
    PeriodContainsItsDate(startDay, b);
  }

  /** Two periods are equal or disjoint, so the periods partition the calendar. */
  lemma PeriodsPartition(startDay: int, a: Date, b: Date)
    requires 1 <= startDay <= 28
    ensures PeriodBounds(startDay, a) == PeriodBounds(startDay, b)
         || PeriodBounds(startDay, a).end.Key() < PeriodBounds(startDay, b).start.Key()
         || PeriodBounds(startDay, b).end.Key() < PeriodBounds(startDay, a).start.Key()
  {
    var s, t := PeriodBounds(startDay, a).start, PeriodBounds(startDay, b).start;
    PeriodsAbut(startDay, a);
    PeriodsAbut(startDay, b);
    MembersShareThePeriod(startDay, a, t);
    MembersShareThePeriod(startDay, b, s);
  }

  /** The day after a period ends is the first day of the next one: no gap, no overlap. */
  lemma PeriodsAbut(startDay: int, a: Date)
    requires 1 <= startDay <= 28
    ensures var p := PeriodBounds(startDay, a);
            var next := PeriodBounds(startDay, NextDay(p.end));
            next.start == NextDay(p.end) && next.start == AddOneMonth(p.start)
    ensures var p := PeriodBounds(startDay, a); PeriodBounds(startDay, p.start) == p
  {
    var p := PeriodBounds(startDay, a);
    assert NextDay(p.end) == AddOneMonth(p.start) by { NextThenPrev(AddOneMonth(p.start)); }
  }

  lemma OneMonthLater(d: Date)
    requires d.day <= 28
    ensures Ordinal(AddOneMonth(d)) == Ordinal(d) + DaysInMonth(d.year, d.month)
  {
    if d.month == 12 {
      MonthTable(d.year);
      YearLength(d.year);
    }
  }

  /** A period runs from the start day of one month to the day before that of the next, so it
      is as long as the month it starts in. */
  lemma PeriodIsOneMonth(startDay: int, on: Date)
    requires 1 <= startDay <= 28
    ensures var p := PeriodBounds(startDay, on);
            p.start.day == startDay && NextDay(p.end).day == startDay
            && NextDay(p.end).year * 12 + NextDay(p.end).month == p.start.year * 12 + p.start.month + 1
            && Ordinal(p.end) - Ordinal(p.start) + 1 == DaysInMonth(p.start.year, p.start.month)
  {
    var p := PeriodBounds(startDay, on);
    NextThenPrev(AddOneMonth(p.start));
    NextDayIsOneLater(p.end);
    OneMonthLater(p.start);
  }

  /** The library's dates stop at years 1 and 9999. The period arithmetic leaves that
      range exactly at the two ends of it. */
  lemma PeriodStaysInYearRange(startDay: int, on: Date)
    requires 1 <= startDay <= 28
    requires 1 <= on.year <= 9999
    ensures var start := PeriodStart(startDay, on);
            (1 <= start.year && AddOneMonth(start).year <= 9999)
            <==> (!(on.year == 1 && on.month == 1 && on.day < startDay)
                 && !(on.year == 9999 && on.month == 12 && startDay <= on.day))
  {
  }
}
