/**
 * Proleptic Gregorian calendar dates as JavaScript's `Date` sees them in local time, with
 * the time of day left out. `MakeDate` is the `new Date(year, month, day)` constructor
 * for years outside 0..99 (the constructor reads a year in 0..99 as 1900 + year, and
 * `MakeDate` takes the year as given): like MakeDay in section 21.4 (Date Objects) of
 * ECMA-262 it accepts any integers and carries an out-of-range month into the year and
 * an out-of-range day into the neighbouring months. `DayNumber` counts days from 1970-01-01, so comparing two dates
 * with `<` or `>=` (which compares their time values) is comparing their day numbers.
 */
module Calendar {

  /** A calendar date; `month` is 0-based, as `getMonth()` returns it. */
  datatype Date = Date(year: int, month: int, day: int)

  predicate IsLeapYear(y: int) {
    y % 4 == 0 && (y % 100 != 0 || y % 400 == 0)
  }

  /** Length of month `m` (0-based) of year `y`. */
  function DaysInMonth(y: int, m: int): (n: int)
    requires 0 <= m < 12
    ensures 28 <= n <= 31
  {
    if m == 1 then (if IsLeapYear(y) then 29 else 28)
    else if m == 3 || m == 5 || m == 8 || m == 10 then 30
    else 31
  }

  /** A date that names an existing day. */
  predicate Valid(d: Date) {
    0 <= d.month < 12 && 1 <= d.day <= DaysInMonth(d.year, d.month)
  }

  /** Length of month `m` of year `y` after carrying `m` into the year (`m` may be any integer). */
  function MonthLength(y: int, m: int): (n: int)
    ensures 28 <= n <= 31
  {
    DaysInMonth(y + m / 12, m % 12)
  }

  /**
   * `new Date(y, m, d)` for a year outside 0..99: the month is carried into the year first, then a day past the end
   * of the month runs on into the following months and a day below 1 runs back into the
   * preceding ones. The result always names an existing day.
   */
  function MakeDate(y: int, m: int, d: int): (r: Date)
    ensures Valid(r)
    decreases if d < 1 then 100 - d else d
  {
    if d < 1 then MakeDate(y, m - 1, d + MonthLength(y, m - 1))
    else if d > MonthLength(y, m) then MakeDate(y, m + 1, d - MonthLength(y, m))
    else Date(y + m / 12, m % 12, d)
  }

  /** Leap years in the years before `y` (counted from year 0, so differences are exact). */
  function LeapYearsBefore(y: int): int {
    (y - 1) / 4 - (y - 1) / 100 + (y - 1) / 400
  }

  /** Days from 1970-01-01 to the first of January of year `y`. */
  function DaysBeforeYear(y: int): int {
    365 * (y - 1970) + LeapYearsBefore(y) - LeapYearsBefore(1970)
  }

  /** Days from the first of January of year `y` to the first day of month `m`. */
  function DaysBeforeMonth(y: int, m: int): int
    requires 0 <= m <= 12
  {
    if m == 0 then 0 else DaysBeforeMonth(y, m - 1) + DaysInMonth(y, m - 1)
  }

  /** Days from 1970-01-01 to `d`: the date's time value divided by the length of a day. */
  function DayNumber(d: Date): int
    requires 0 <= d.month < 12
  {
    DaysBeforeYear(d.year) + DaysBeforeMonth(d.year, d.month) + d.day - 1
  }

  /** `getDay()`: 0 is Sunday; 1970-01-01 was a Thursday. */
  function WeekDay(d: Date): (w: int)
    requires 0 <= d.month < 12
    ensures 0 <= w < 7
  {
    (DayNumber(d) + 4) % 7
  }

  /** Strictly earlier, as JavaScript's `<` compares two dates. */
  predicate Before(a: Date, b: Date)
    requires 0 <= a.month < 12 && 0 <= b.month < 12
  {
    DayNumber(a) < DayNumber(b)
  }

  /** Earlier or the same day, as `<=` compares two dates. */
  predicate NotAfter(a: Date, b: Date)
    requires 0 <= a.month < 12 && 0 <= b.month < 12
  {
    DayNumber(a) <= DayNumber(b)
  }

  /** The first day of the month that `m` (any integer) names in year `y`. */
  function FirstOfMonth(y: int, m: int): (r: Date)
    ensures Valid(r) && r.day == 1
  {
    Date(y + m / 12, m % 12, 1)
  }

  /** Stepping `y` by one raises `y / 4` exactly when the new value is a multiple of 4. */
  lemma DivStep4(y: int)
    ensures y / 4 == (y - 1) / 4 + (if y % 4 == 0 then 1 else 0)
  {
  }

  /** Stepping `y` by one raises `y / 100` exactly when the new value is a multiple of 100. */
  lemma DivStep100(y: int)
    ensures y / 100 == (y - 1) / 100 + (if y % 100 == 0 then 1 else 0)
  {
  }

  /** Stepping `y` by one raises `y / 400` exactly when the new value is a multiple of 400. */
  lemma DivStep400(y: int)
    ensures y / 400 == (y - 1) / 400 + (if y % 400 == 0 then 1 else 0)
  {
  }

  /** Whether `y` is a leap year, by inclusion and exclusion of the three divisibility tests. */
  lemma LeapIndicator(y: int)
    ensures (if IsLeapYear(y) then 1 else 0) ==
      (if y % 4 == 0 then 1 else 0) - (if y % 100 == 0 then 1 else 0) + (if y % 400 == 0 then 1 else 0)
  {
    if y % 100 == 0 {
      assert y == 4 * (25 * (y / 100));
    }
    if y % 400 == 0 {
      assert y == 100 * (4 * (y / 400));
    }
  }

  lemma LeapYearsStep(y: int)
    ensures LeapYearsBefore(y + 1) == LeapYearsBefore(y) + (if IsLeapYear(y) then 1 else 0)
  {
    DivStep4(y);
    DivStep100(y);
    DivStep400(y);
    LeapIndicator(y);
  }

  lemma YearLength(y: int)
    ensures DaysBeforeMonth(y, 12) == if IsLeapYear(y) then 366 else 365
  {
    var feb := DaysInMonth(y, 1);
    assert DaysBeforeMonth(y, 1) == 31;
    assert DaysBeforeMonth(y, 2) == 31 + feb;
    assert DaysBeforeMonth(y, 3) == 62 + feb;
    assert DaysBeforeMonth(y, 4) == 92 + feb;
    assert DaysBeforeMonth(y, 5) == 123 + feb;
    assert DaysBeforeMonth(y, 6) == 153 + feb;
    assert DaysBeforeMonth(y, 7) == 184 + feb;
    assert DaysBeforeMonth(y, 8) == 215 + feb;
    assert DaysBeforeMonth(y, 9) == 245 + feb;
    assert DaysBeforeMonth(y, 10) == 276 + feb;
    assert DaysBeforeMonth(y, 11) == 306 + feb;
    assert DaysBeforeMonth(y, 12) == 337 + feb;
  }

  /** The first of the next month lies exactly one month length after the first of this one. */
  lemma {:induction false} NextFirstOfMonth(y: int, m: int)
    ensures DayNumber(FirstOfMonth(y, m + 1)) == DayNumber(FirstOfMonth(y, m)) + MonthLength(y, m)
  {
    var a := FirstOfMonth(y, m);
    var b := FirstOfMonth(y, m + 1);
    if a.month == 11 {
      assert b.year == a.year + 1 && b.month == 0;
      YearLength(a.year);
      LeapYearsStep(a.year);
    } else {
      assert b.year == a.year && b.month == a.month + 1;
    }
  }

  /**
   * `MakeDate` agrees with ECMA-262's MakeDay: its result lies `d - 1` days after the first
   * day of the (carried) month `m`, whatever the size or sign of `d`.
   */
  lemma {:induction false} MakeDateIsMakeDay(y: int, m: int, d: int)
    ensures DayNumber(MakeDate(y, m, d)) == DayNumber(FirstOfMonth(y, m)) + d - 1
    decreases if d < 1 then 100 - d else d
  {
    if d < 1 {
      var e := d + MonthLength(y, m - 1);
      MakeDateIsMakeDay(y, m - 1, e);
      NextFirstOfMonth(y, m - 1);
    } else if d > MonthLength(y, m) {
      var e := d - MonthLength(y, m);
      MakeDateIsMakeDay(y, m + 1, e);
      NextFirstOfMonth(y, m);
    } else {
      MakeDayInMonth(y, m, d);
    }
  }

  /** The case of `MakeDateIsMakeDay` without carry. */
  lemma MakeDayInMonth(y: int, m: int, d: int)
    requires 1 <= d <= MonthLength(y, m)
    ensures DayNumber(MakeDate(y, m, d)) == DayNumber(FirstOfMonth(y, m)) + d - 1
  {
    assert MakeDate(y, m, d) == FirstOfMonth(y, m).(day := d);
  }

  /** A day that exists in the (carried) month is kept as it is. */
  lemma MakeDateInMonth(y: int, m: int, d: int)
    requires 1 <= d <= MonthLength(y, m)
    ensures MakeDate(y, m, d) == Date(y + m / 12, m % 12, d)
  {
  }

  /**
   * A day past the end of the (carried) month, by at most the next month's length, lands
   * in the next month.
   */
  lemma MakeDateCarry(y: int, m: int, d: int)
    requires MonthLength(y, m) < d <= MonthLength(y, m) + MonthLength(y, m + 1)
    ensures MakeDate(y, m, d) == Date(y + (m + 1) / 12, (m + 1) % 12, d - MonthLength(y, m))
  {
  }

  /** Day 0 of a month is the last day of the month before it. */
  lemma DayZeroIsLastOfPrevious(y: int, m: int)
    ensures MakeDate(y, m, 0) == Date(y + (m - 1) / 12, (m - 1) % 12, MonthLength(y, m - 1))
  {
  }

  /** Every month of 30 days or fewer (February and the 30-day months) is followed by a 31-day month. */
  lemma ShortMonthThenLongMonth(y: int, m: int)
    requires MonthLength(y, m) <= 30
    ensures MonthLength(y, m + 1) == 31
  {
    assert m % 12 != 11;
    assert (m + 1) / 12 == m / 12 && (m + 1) % 12 == m % 12 + 1;
  }
}
