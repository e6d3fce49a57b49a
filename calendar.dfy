/**
 * The proleptic Gregorian calendar arithmetic that the classifier obtains
 * from `datetime.date(y, m, d).timetuple().tm_yday`: validity of a date and
 * its 1-based ordinal day within its year.
 */
module Calendar {
  import opened Wrappers

  const MIN_YEAR := 1
  const MAX_YEAR := 9999

  /** Divisible by 4, and not by 100 unless by 400. */
  function IsLeapYear(y: int): (b: bool)
    ensures b ==> y % 4 == 0
    ensures y % 4 == 0 && y % 100 != 0 ==> b
    ensures y % 100 == 0 ==> (b <==> y % 400 == 0)
  {
    assert y % 400 == 0 ==> y % 4 == 0 by {
      if y % 400 == 0 {
        assert y == 4 * (100 * (y / 400));
      }
    }
    y % 4 == 0 && (y % 100 != 0 || y % 400 == 0)
  }

  function DaysInYear(y: int): (n: int)
    ensures n == 365 || n == 366
  {
    if IsLeapYear(y) then 366 else 365
  }

  function DaysInMonth(y: int, m: int): (n: int)
    requires 1 <= m <= 12
    ensures 28 <= n <= 31
    ensures n == 29 <==> m == 2 && IsLeapYear(y)
  {
    if m == 2 then (if IsLeapYear(y) then 29 else 28)
    else if m == 4 || m == 6 || m == 9 || m == 11 then 30
    else 31
  }

  predicate ValidMonthDay(y: int, m: int, d: int) {
    1 <= m <= 12 && 1 <= d <= DaysInMonth(y, m)
  }

  /** The dates `datetime.date` accepts; any other triple raises ValueError. */
  predicate ValidDate(y: int, m: int, d: int) {
    MIN_YEAR <= y <= MAX_YEAR && ValidMonthDay(y, m, d)
  }

  /** Days in the months before month `m`, from a fixed table plus the leap day. */
  function DaysBeforeMonth(y: int, m: int): nat
    requires 1 <= m <= 12
  {
    var common := [0, 31, 59, 90, 120, 151, 181, 212, 243, 273, 304, 334][m - 1];
    if m > 2 && IsLeapYear(y) then common + 1 else common
  }

  /** Reference definition: the lengths of months 1 .. m-1 added up one by one. */
  function MonthsLength(y: int, m: int): nat
    requires 1 <= m <= 13
  {
    if m == 1 then 0 else MonthsLength(y, m - 1) + DaysInMonth(y, m - 1)
  }

  lemma NextMonthStart(y: int, m: int)
    requires 1 <= m < 12
    ensures DaysBeforeMonth(y, m + 1) == DaysBeforeMonth(y, m) + DaysInMonth(y, m)
  {
  }

  /** The table agrees with adding up the month lengths. */
  lemma {:induction false} DaysBeforeMonthIsSum(y: int, m: int)
    requires 1 <= m <= 12
    ensures DaysBeforeMonth(y, m) == MonthsLength(y, m)
  {
    if m > 1 {
      DaysBeforeMonthIsSum(y, m - 1);
      NextMonthStart(y, m - 1);
    }
  }

  /** The twelve months add up to the length of the year. */
  lemma YearLength(y: int)
    ensures MonthsLength(y, 13) == DaysInYear(y)
  {
    DaysBeforeMonthIsSum(y, 12);
  }

  /** The `tm_yday` of a valid date. */
  function YearDay(y: int, m: int, d: int): (n: int)
    requires ValidMonthDay(y, m, d)
    ensures 1 <= n <= DaysInYear(y)
    ensures n == MonthsLength(y, m) + d
  {
    DaysBeforeMonthIsSum(y, m);
    DaysBeforeMonth(y, m) + d
  }

  /** `datetime.date(y, m, d).timetuple().tm_yday`, or None where the constructor raises. */
  function DayOfYear(y: int, m: int, d: int): (r: Option<int>)
    ensures r.Some? <==> ValidDate(y, m, d)
    ensures r.Some? ==> 1 <= r.value <= DaysInYear(y)
    ensures r.Some? ==> r.value == MonthsLength(y, m) + d
  {
    if ValidDate(y, m, d) then Some(YearDay(y, m, d)) else None
  }

  /** Lexicographic order on (month, day). */
  predicate Before(m1: int, d1: int, m2: int, d2: int) {
    m1 < m2 || (m1 == m2 && d1 < d2)
  }

  lemma DaysBeforeMonthMonotone(y: int, m1: int, m2: int)
    requires 1 <= m1 < m2 <= 12
    ensures DaysBeforeMonth(y, m1) + DaysInMonth(y, m1) <= DaysBeforeMonth(y, m2)
  {
  }

  /** Day-of-year numbering preserves and reflects the calendar order of a year. */
  lemma YearDayOrder(y: int, m1: int, d1: int, m2: int, d2: int)
    requires ValidMonthDay(y, m1, d1) && ValidMonthDay(y, m2, d2)
    ensures Before(m1, d1, m2, d2) <==> YearDay(y, m1, d1) < YearDay(y, m2, d2)
    ensures (m1, d1) == (m2, d2) <==> YearDay(y, m1, d1) == YearDay(y, m2, d2)
  {
    if m1 < m2 {
      DaysBeforeMonthMonotone(y, m1, m2);
    } else if m2 < m1 {
      DaysBeforeMonthMonotone(y, m2, m1);
    }
  }

  /** The date of day `n` of year `y`, searching from month `m` onwards. */
  function MonthDayFrom(y: int, m: int, n: int): (md: (int, int))
    requires 1 <= m <= 12
    requires DaysBeforeMonth(y, m) < n <= DaysInYear(y)
    ensures ValidMonthDay(y, md.0, md.1) && m <= md.0
    ensures YearDay(y, md.0, md.1) == n
    decreases 12 - m
  {
    if m == 12 || n <= DaysBeforeMonth(y, m) + DaysInMonth(y, m) then
      (m, n - DaysBeforeMonth(y, m))
    else
      NextMonthStart(y, m);
      MonthDayFrom(y, m + 1, n)
  }

  /** The inverse of YearDay: the (month, day) that is day `n` of year `y`. */
  function MonthDay(y: int, n: int): (md: (int, int))
    requires 1 <= n <= DaysInYear(y)
    ensures ValidMonthDay(y, md.0, md.1) && YearDay(y, md.0, md.1) == n
  {
    MonthDayFrom(y, 1, n)
  }

  /** YearDay and MonthDay are inverse bijections between valid dates and 1 .. DaysInYear. */
  lemma YearDayRoundTrip(y: int, m: int, d: int)
    requires ValidMonthDay(y, m, d)
    ensures MonthDay(y, YearDay(y, m, d)) == (m, d)
  {
    var md := MonthDay(y, YearDay(y, m, d));
    YearDayOrder(y, md.0, md.1, m, d);
  }

  /** January 1 is day 1, December 31 is day 365 or 366, February 29 is day 60. */
  lemma YearDayLandmarks(y: int)
    ensures YearDay(y, 1, 1) == 1
    ensures YearDay(y, 12, 31) == DaysInYear(y)
    ensures IsLeapYear(y) ==> YearDay(y, 2, 29) == 60
    ensures YearDay(y, 3, 1) == if IsLeapYear(y) then 61 else 60
  {
  }

  /**
   * A date after February falls one day later in a leap year than in a
   * common year; January and February dates agree.
   */
  lemma LeapShift(common: int, leap: int, m: int, d: int)
    requires !IsLeapYear(common) && IsLeapYear(leap)
    requires ValidMonthDay(common, m, d)
    ensures ValidMonthDay(leap, m, d)
    ensures YearDay(leap, m, d) == YearDay(common, m, d) + (if m > 2 then 1 else 0)
  {
  }
}
