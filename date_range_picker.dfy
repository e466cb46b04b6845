/**
 * The date-range picker: a two-click selection that emits (start, null) on the first click
 * and an ordered (start, end) pair on the second, a month view that can be moved one month
 * back or forward, the calendar grid of that month, and the label of the chosen range.
 *
 * The selected range belongs to the parent (the `startDate` / `endDate` props); the picker
 * owns only `isOpen`, `currentMonth` and `selectingStart`, so the handlers take the props as
 * parameters and return what they emit through `onDateChange`.
 */
module DateRangePicker {
  import opened Wrappers
  import opened Calendar

  /** An optional date prop that, when set, names an existing day. */
  predicate ValidProp(d: Option<Date>) {
    d.Some? ==> Calendar.Valid(d.value)
  }

  // ---------------------------------------------------------------- month arithmetic

  /** `getDaysInMonth`: `new Date(y, m + 1, 0).getDate()`. */
  function GetDaysInMonth(current: Date): int {
    MakeDate(current.year, current.month + 1, 0).day
  }

  /**
   * Day 0 of the next month gives the Gregorian length of the month: 29 days in February of
   * a leap year, 28 in other Februaries, 30 in April, June, September and November, 31 otherwise.
   */
  lemma GetDaysInMonthIsGregorian(current: Date)
    requires Calendar.Valid(current)
    ensures var n := GetDaysInMonth(current);
      && n == DaysInMonth(current.year, current.month)
      && (current.month == 1 ==> (n == 29 <==> IsLeapYear(current.year)) && (n == 28 <==> !IsLeapYear(current.year)))
      && (current.month != 1 ==> (n == 30 <==> current.month in {3, 5, 8, 10}) && (n == 31 <==> current.month !in {3, 5, 8, 10}))
  {
    DayZeroIsLastOfPrevious(current.year, current.month + 1);
  }

  /** `getFirstDayOfMonth`: the weekday (0 = Sunday) of the first of the current month. */
  function GetFirstDayOfMonth(current: Date): (w: int)
    ensures 0 <= w < 7
  {
    WeekDay(MakeDate(current.year, current.month, 1))
  }

  /**
   * In a grid of seven columns that starts with `GetFirstDayOfMonth` blank cells, day `k`
   * of the month falls in the column of its own weekday.
   */
  lemma GridColumnIsWeekDay(current: Date, k: int)
    requires Calendar.Valid(current)
    requires 1 <= k <= GetDaysInMonth(current)
    ensures WeekDay(MakeDate(current.year, current.month, k)) == (GetFirstDayOfMonth(current) + k - 1) % 7
  {
    MakeDateIsMakeDay(current.year, current.month, k);
    MakeDateIsMakeDay(current.year, current.month, 1);
    var first := DayNumber(FirstOfMonth(current.year, current.month));
    ModSevenShift(first + 4, k - 1);
  }

  lemma ModSevenShift(a: int, b: int)
    ensures (a % 7 + b) % 7 == (a + b) % 7
  {
    var q := a / 7;
    assert a == 7 * q + a % 7;
    assert a + b == 7 * q + (a % 7 + b);
  }

  // ---------------------------------------------------------------- day predicates

  /** The date of day `day` in the month on display. */
  function DayDate(current: Date, day: int): (d: Date)
    ensures Calendar.Valid(d)
  {
    MakeDate(current.year, current.month, day)
  }

  /** `isDateInRange`: both ends set and the day between them, inclusive. */
  predicate IsDateInRange(current: Date, day: int, startDate: Option<Date>, endDate: Option<Date>)
    requires ValidProp(startDate) && ValidProp(endDate)
  {
    && startDate.Some? && endDate.Some?
    && NotAfter(startDate.value, DayDate(current, day))
    && NotAfter(DayDate(current, day), endDate.value)
  }

  /** Both ends of a range shown in the current month are themselves in range. */
  lemma RangeIsInclusive(current: Date, s: Date, e: Date)
    requires Calendar.Valid(current) && Calendar.Valid(s) && Calendar.Valid(e) && NotAfter(s, e)
    ensures s.year == current.year && s.month == current.month ==>
      IsDateInRange(current, s.day, Some(s), Some(e))
    ensures e.year == current.year && e.month == current.month ==>
      IsDateInRange(current, e.day, Some(s), Some(e))
    ensures forall day :: !IsDateInRange(current, day, None, Some(e)) && !IsDateInRange(current, day, Some(s), None)
  {
    if s.year == current.year && s.month == current.month {
      OwnDayDate(current, s);
    }
    if e.year == current.year && e.month == current.month {
      OwnDayDate(current, e);
    }
  }

  /** A date in the month on display is the date of its own day number. */
  lemma OwnDayDate(current: Date, x: Date)
    requires Calendar.Valid(current) && Calendar.Valid(x)
    requires x.year == current.year && x.month == current.month
    ensures DayDate(current, x.day) == x
  {
    MakeDateInMonth(current.year, current.month, x.day);
  }

  /** `isDateSelected`: the day is the start or the end date (same `toDateString`). */
  predicate IsDateSelected(current: Date, day: int, startDate: Option<Date>, endDate: Option<Date>) {
    startDate == Some(DayDate(current, day)) || endDate == Some(DayDate(current, day))
  }

  // ---------------------------------------------------------------- labels

  predicate IsDigit(c: char) { '0' <= c <= '9' }

  function DigitChar(n: int): (c: char)
    requires 0 <= n < 10
    ensures IsDigit(c) && c as int - '0' as int == n
  {
    ('0' as int + n) as char
  }

  /** Value of a digit character. */
  function DigitValue(c: char): (v: int)
    requires IsDigit(c)
    ensures 0 <= v < 10 && DigitChar(v) == c
  {
    c as int - '0' as int
  }

  /** The number a string of decimal digits denotes, most significant first. */
  function ValueOf(s: string): nat
    requires forall i :: 0 <= i < |s| ==> IsDigit(s[i])
  {
    if s == [] then 0 else 10 * ValueOf(s[..|s| - 1]) + DigitValue(s[|s| - 1])
  }

  /** Decimal digits of `n`, most significant first. */
  function Digits(n: nat): (s: string)
    ensures |s| >= 1 && forall i :: 0 <= i < |s| ==> IsDigit(s[i])
  {
    if n < 10 then [DigitChar(n)] else Digits(n / 10) + [DigitChar(n % 10)]
  }

  /** Reading the digits back gives the number. */
  lemma {:induction false} DigitsRoundTrip(n: nat)
    ensures ValueOf(Digits(n)) == n
  {
    var s := Digits(n);
    if n >= 10 {
      DigitsRoundTrip(n / 10);
      assert s[..|s| - 1] == Digits(n / 10);
    }
  }

  /** Two-digit form of a day or month number. */
  function Pad2(n: nat): (s: string)
    ensures |s| >= 2 && forall i :: 0 <= i < |s| ==> IsDigit(s[i])
    ensures n < 100 ==> s == [DigitChar(n / 10), DigitChar(n % 10)]
  {
    if n < 10 then
      assert DigitChar(0) == '0';
      "0" + Digits(n)
    else
      assert n < 100 ==> Digits(n / 10) == [DigitChar(n / 10)];
      Digits(n)
  }

  /** Two digits read back as the number they were made from. */
  lemma TwoDigitsRoundTrip(n: nat)
    requires n < 100
    ensures ValueOf([DigitChar(n / 10), DigitChar(n % 10)]) == n
  {
    var s := [DigitChar(n / 10), DigitChar(n % 10)];
    assert s[..1] == [DigitChar(n / 10)];
    assert s[..1][..0] == [];
    assert ValueOf(s[..1]) == DigitValue(DigitChar(n / 10)) == n / 10;
    assert ValueOf(s) == 10 * (n / 10) + DigitValue(DigitChar(n % 10));
  }

  /** `toLocaleDateString('pt-BR')`: dd/mm/yyyy. */
  function FormatDate(d: Date): (s: string)
    requires Calendar.Valid(d)
    ensures |s| >= 7 && IsDigit(s[0]) && IsDigit(s[|s| - 1])
    ensures s[..2] == [DigitChar(d.day / 10), DigitChar(d.day % 10)] && s[2] == '/'
    ensures s[3..5] == [DigitChar((d.month + 1) / 10), DigitChar((d.month + 1) % 10)] && s[5] == '/'
    ensures d.year >= 0 ==> s[6..] == Digits(d.year)
    ensures d.year < 0 ==> s[6..] == "-" + Digits(-d.year)
  {
    var year := if d.year < 0 then "-" + Digits(-d.year) else Digits(d.year);
    Pad2(d.day) + "/" + Pad2(d.month + 1) + "/" + year
  }

  /** The day and month fields of the label read back as the date's day and 1-based month, and the year field as its year. */
  lemma FormatDateReadsBack(d: Date)
    requires Calendar.Valid(d) && d.year >= 0
    ensures ValueOf(FormatDate(d)[..2]) == d.day
    ensures ValueOf(FormatDate(d)[3..5]) == d.month + 1
    ensures ValueOf(FormatDate(d)[6..]) == d.year
  {
    DigitsRoundTrip(d.year);
    TwoDigitsRoundTrip(d.day);
    TwoDigitsRoundTrip(d.month + 1);
  }

  const NoRangeLabel := "Selecionar período"
  const NoEndLabel := " - Selecione fim"

  /** `formatDateRange`. */
  function FormatDateRange(startDate: Option<Date>, endDate: Option<Date>): (r: string)
    requires ValidProp(startDate) && ValidProp(endDate)
  {
    if startDate.Some? && endDate.Some? then FormatDate(startDate.value) + " - " + FormatDate(endDate.value)
    else if startDate.Some? then FormatDate(startDate.value) + NoEndLabel
    else NoRangeLabel
  }

  /**
   * The label takes each of its three forms exactly when the props call for it: a full
   * range iff both ends are set, the "Selecione fim" form iff only the start is set, and
   * the placeholder otherwise.
   */
  lemma FormatDateRangeForms(startDate: Option<Date>, endDate: Option<Date>)
    requires ValidProp(startDate) && ValidProp(endDate)
    ensures var r := FormatDateRange(startDate, endDate);
      && (r == NoRangeLabel <==> startDate.None?)
      && (startDate.Some? && endDate.None? <==> startDate.Some? && r == FormatDate(startDate.value) + NoEndLabel)
      && (startDate.Some? && endDate.Some? <==>
            startDate.Some? && endDate.Some? && r == FormatDate(startDate.value) + " - " + FormatDate(endDate.value))
  {
    if startDate.Some? {
      var tail := if endDate.Some? then " - " + FormatDate(endDate.value) else NoEndLabel;
      assert FormatDateRange(startDate, endDate) == FormatDate(startDate.value) + tail;
      LabelIsNotPlaceholder(startDate.value, tail);
      if endDate.Some? {
        FullLabelIsNotHalf(startDate.value, endDate.value);
      }
    }
  }

  /** A label that starts with a date is not the placeholder, which starts with a letter. */
  lemma LabelIsNotPlaceholder(d: Date, tail: string)
    requires Calendar.Valid(d)
    ensures FormatDate(d) + tail != NoRangeLabel
  {
    var r := FormatDate(d) + tail;
    assert IsDigit(r[0]);
    assert NoRangeLabel[0] == 'S';
  }

  /** The full-range label ends with a digit, the half-range one with a letter. */
  lemma FullLabelIsNotHalf(s: Date, e: Date)
    requires Calendar.Valid(s) && Calendar.Valid(e)
    ensures FormatDate(s) + " - " + FormatDate(e) != FormatDate(s) + NoEndLabel
  {
    var full, half := FormatDate(s) + " - " + FormatDate(e), FormatDate(s) + NoEndLabel;
    var end := FormatDate(e);
    assert full[|full| - 1] == end[|end| - 1];
    assert IsDigit(full[|full| - 1]);
    assert half[|half| - 1] == 'm';
  }

  const StartHint := "Selecione a data de início"
  const EndHint := "Selecione a data de fim"

  /**
   * The footer hint: which end the next click chooses. It asks for a start date while
   * the picker is choosing one or has none yet, and for an end date otherwise.
   */
  function FooterHint(selectingStart: bool, startDate: Option<Date>): (r: string)
    ensures r == StartHint <==> selectingStart || startDate.None?
    ensures r == EndHint <==> !selectingStart && startDate.Some?
  {
    if selectingStart || startDate.None? then StartHint else EndHint
  }

  // ---------------------------------------------------------------- selection

  /**
   * The pair emitted by a second click: the earlier of the two dates first, whichever
   * was clicked first; a click on the start day itself emits (start, start).
   */
  function OrderedRange(clicked: Date, start: Date): (r: (Date, Date))
    requires Calendar.Valid(clicked) && Calendar.Valid(start)
    ensures Calendar.Valid(r.0) && Calendar.Valid(r.1)
    ensures NotAfter(r.0, r.1)
    ensures multiset{r.0, r.1} == multiset{clicked, start}
  {
    if Before(clicked, start) then (clicked, start) else (start, clicked)
  }

  /**
   * Navigating from day 31 (or 29/30 before a shorter month) carries past the
   * neighbouring month: "next" from 2025-01-31 shows March.
   */
  lemma NavigateFromThirtyFirstSkipsMonth()
    ensures MakeDate(2025, 0 + 1, 31) == Date(2025, 2, 3)
  {
    MakeDateCarry(2025, 1, 31);
  }

  /** A month move that starts from the first of the month, so it never carries. */
  function NeighbourMonth(current: Date, forward: bool): (r: Date)
    ensures Calendar.Valid(r) && r.day == 1
    ensures r == FirstOfMonth(current.year, current.month + (if forward then 1 else -1))
  {
    MakeDate(current.year, current.month + (if forward then 1 else -1), 1)
  }

  /** Starting from the first of the month, a move lands exactly one month away, with year carry. */
  lemma NeighbourMonthIsAdjacent(current: Date, forward: bool)
    requires Calendar.Valid(current)
    ensures var r := NeighbourMonth(current, forward);
      forward ==> (if current.month == 11 then r.year == current.year + 1 && r.month == 0
                   else r.year == current.year && r.month == current.month + 1)
    ensures var r := NeighbourMonth(current, forward);
      !forward ==> (if current.month == 0 then r.year == current.year - 1 && r.month == 11
                    else r.year == current.year && r.month == current.month - 1)
  {
  }

  /** One cell of the calendar grid. */
  datatype Cell = Blank | Day(day: int, selected: bool, inRange: bool)

  function DayCell(current: Date, day: int, startDate: Option<Date>, endDate: Option<Date>): Cell
    requires ValidProp(startDate) && ValidProp(endDate)
  {
    Day(day, IsDateSelected(current, day, startDate, endDate), IsDateInRange(current, day, startDate, endDate))
  }

  // ---------------------------------------------------------------- the component state

  class Picker {
    var isOpen: bool
    var currentMonth: Date
    var selectingStart: bool

    ghost predicate Valid()
      reads this
    {
      Calendar.Valid(currentMonth)
    }

    /** Mounted closed, showing the month of `today`, waiting for a start date. */
    constructor (today: Date)
      requires Calendar.Valid(today)
      ensures Valid()
      ensures !isOpen && currentMonth == today && selectingStart
    {
      isOpen := false;
      currentMonth := today;
      selectingStart := true;
    }

    /** The trigger button: `setIsOpen(!isOpen)`. */
    method Toggle()
      modifies this
      ensures isOpen == !old(isOpen)
      ensures currentMonth == old(currentMonth) && selectingStart == old(selectingStart)
    {
      isOpen := !isOpen;
    }

    /**
     * `handleDayClick(day)`: returns the pair handed to `onDateChange`. Choosing a start
     * emits (clicked, null), switches to end selection and keeps the picker open; choosing
     * an end emits an ordered pair, switches back to start selection and closes.
     */
    method HandleDayClick(day: int, startDate: Option<Date>) returns (newStart: Option<Date>, newEnd: Option<Date>)
      requires Valid() && ValidProp(startDate)
      modifies this
      ensures Valid() && currentMonth == old(currentMonth)
      ensures old(selectingStart) || startDate.None? ==>
        && newStart == Some(DayDate(currentMonth, day)) && newEnd == None
        && !selectingStart && isOpen == old(isOpen)
      ensures ValidProp(newStart) && ValidProp(newEnd)
      ensures !old(selectingStart) && startDate.Some? ==>
        && newStart.Some? && newEnd.Some?
        && NotAfter(newStart.value, newEnd.value)
        && multiset{newStart.value, newEnd.value} == multiset{DayDate(currentMonth, day), startDate.value}
        && selectingStart && !isOpen
      ensures FooterHint(old(selectingStart), startDate) == StartHint <==> newEnd.None?
      ensures FooterHint(selectingStart, newStart) == (if newEnd.None? then EndHint else StartHint)
    {
      var selectedDate := DayDate(currentMonth, day);
      if selectingStart || startDate.None? {
        newStart, newEnd := Some(selectedDate), None;
        selectingStart := false;
      } else {
        var range := OrderedRange(selectedDate, startDate.value);
        newStart, newEnd := Some(range.0), Some(range.1);
        selectingStart := true;
        isOpen := false;
      }
    }

    /**
     * `navigateMonth`: `setMonth(getMonth() ± 1)` on a copy, which keeps the day of the
     * month and lets the Date constructor carry it when the neighbouring month is shorter.
     */
    method NavigateMonth(forward: bool)
      requires Valid()
      modifies this
      ensures Valid()
      ensures currentMonth == MakeDate(old(currentMonth).year, old(currentMonth).month + (if forward then 1 else -1), old(currentMonth).day)
      ensures var target := old(currentMonth).month + (if forward then 1 else -1);
        old(currentMonth).day <= MonthLength(old(currentMonth).year, target) ==>
          currentMonth == FirstOfMonth(old(currentMonth).year, target).(day := old(currentMonth).day)
      ensures isOpen == old(isOpen) && selectingStart == old(selectingStart)
    {
      var newDate := currentMonth;
      var target := newDate.month + (if forward then 1 else -1);
      if newDate.day <= MonthLength(newDate.year, target) {
        MakeDateInMonth(newDate.year, target, newDate.day);
      }
      newDate := MakeDate(newDate.year, target, newDate.day);
      currentMonth := newDate;
    }

    /**
     * `renderCalendar`: `firstDay` blank cells, then one cell per day of the month,
     * numbered 1..n in order, each flagged as selected and as in range.
     */
    method RenderCalendar(startDate: Option<Date>, endDate: Option<Date>) returns (days: seq<Cell>)
      requires Valid() && ValidProp(startDate) && ValidProp(endDate)
      ensures var first, n := GetFirstDayOfMonth(currentMonth), GetDaysInMonth(currentMonth);
        && |days| == first + n
        && (forall i :: 0 <= i < first ==> days[i] == Blank)
        && (forall i :: first <= i < first + n ==> days[i] == DayCell(currentMonth, i - first + 1, startDate, endDate))
    {
      var daysInMonth := GetDaysInMonth(currentMonth);
      var firstDay := GetFirstDayOfMonth(currentMonth);
      days := [];
      for i := 0 to firstDay
        invariant |days| == i
        invariant forall j :: 0 <= j < i ==> days[j] == Blank
      {
        days := days + [Blank];
      }
      var day := 1;
      while day <= daysInMonth
        invariant 1 <= day <= daysInMonth + 1
        invariant |days| == firstDay + day - 1
        invariant forall j :: 0 <= j < firstDay ==> days[j] == Blank
        invariant forall i :: firstDay <= i < |days| ==> days[i] == DayCell(currentMonth, i - firstDay + 1, startDate, endDate)
      {
        days := days + [DayCell(currentMonth, day, startDate, endDate)];
        day := day + 1;
      }
    }
  }
}
