/**
 * Calendar arithmetic on integer day numbers.
 *
 * Day 0 is 1970-01-01, a Thursday.  A point in time is a day number plus the
 * milliseconds elapsed since midnight of that day; the host time zone is not
 * modelled, every date is read in one fixed zone.
 */
module Dates {

  const MsPerDay: int := 86_400_000
  const LastMsOfDay: int := 86_399_999
  const SecondsPerDay: int := 86_400

  type MsOfDay = x: int | 0 <= x < MsPerDay
  /** A `TIME` column such as '14:30:00', as seconds since midnight. */
  type TimeOfDay = x: int | 0 <= x < SecondsPerDay
  /** JavaScript's `Date.getDay()` encoding: 0 = Sunday … 6 = Saturday. */
  type Weekday = x: int | 0 <= x < 7

  datatype Moment = Moment(day: int, ms: MsOfDay)

  /** `a` lies strictly before `b`. */
  predicate Before(a: Moment, b: Moment) {
    a.day < b.day || (a.day == b.day && a.ms < b.ms)
  }

  predicate AtOrBefore(a: Moment, b: Moment) {
    a == b || Before(a, b)
  }

  /** The moment a session stored with `date` and `time` starts. */
  function StartOf(date: int, time: TimeOfDay): (m: Moment)
    ensures m.day == date && m.ms == time * 1000
  {
    Moment(date, time * 1000)
  }

  /** The weekday of day number `d`; day 0 is a Thursday. */
  function WeekdayOf(d: int): Weekday {
    (d + 4) % 7
  }

  /** The first day `e >= d` whose weekday is `w`; it is at most six days away. */
  function NextWithWeekday(d: int, w: Weekday): (e: int)
    ensures d <= e < d + 7 && WeekdayOf(e) == w
  {
    d + (w - WeekdayOf(d)) % 7
  }

  // ---------------------------------------------------------------------------
  // Civil (proleptic Gregorian) calendar
  // ---------------------------------------------------------------------------

  type Month = m: int | 1 <= m <= 12 witness 1

  datatype Date = Date(year: int, month: Month, day: int)

  predicate IsLeapYear(y: int) {
    y % 4 == 0 && (y % 100 != 0 || y % 400 == 0)
  }

  function YearLength(y: int): int {
    if IsLeapYear(y) then 366 else 365
  }

  function DaysInMonth(y: int, m: Month): int {
    if m == 2 then (if IsLeapYear(y) then 29 else 28)
    else if m == 4 || m == 6 || m == 9 || m == 11 then 30
    else 31
  }

  /** Days of year `y` that precede the first of month `m`. */
  function DaysBeforeMonth(y: int, m: Month): int {
    var common := [0, 31, 59, 90, 120, 151, 181, 212, 243, 273, 304, 334][m - 1];
    if m > 2 && IsLeapYear(y) then common + 1 else common
  }

  /** Day number of January 1 of year `y`. */
  function DaysBeforeYear(y: int): int
    decreases if y < 1970 then 1970 - y else y - 1970
  {
    if y == 1970 then 0
    else if y > 1970 then DaysBeforeYear(y - 1) + YearLength(y - 1)
    else DaysBeforeYear(y + 1) - YearLength(y)
  }

  predicate ValidDate(d: Date) {
    1 <= d.day <= DaysInMonth(d.year, d.month)
  }

  /** The day number of a calendar date. */
  function DayNumber(d: Date): int {
    DaysBeforeYear(d.year) + DaysBeforeMonth(d.year, d.month) + d.day - 1
  }

  lemma YearStep(y: int)
    ensures DaysBeforeYear(y + 1) == DaysBeforeYear(y) + YearLength(y)
  {
  }

  lemma MonthStep(y: int, m: Month)
    requires m < 12
    ensures DaysBeforeMonth(y, m + 1) == DaysBeforeMonth(y, m) + DaysInMonth(y, m)
  {
  }

  lemma LastMonthFillsYear(y: int)
    ensures DaysBeforeMonth(y, 12) + DaysInMonth(y, 12) == YearLength(y)
  {
  }

  /**
   * Walks whole years from January 1 of `y` until `offset` days past it fall
   * inside one year; returns that year and the zero-based day within it.
   */
  function LocateYear(offset: int, y: int): (r: (int, int))
    decreases (if offset < 0 then -offset else 0), (if offset < 0 then 0 else offset)
    ensures 0 <= r.1 < YearLength(r.0)
    ensures DaysBeforeYear(r.0) + r.1 == DaysBeforeYear(y) + offset
  {
    if offset < 0 then
      YearStep(y - 1);
      LocateYear(offset + YearLength(y - 1), y - 1)
    else if offset < YearLength(y) then
      (y, offset)
    else
      YearStep(y);
      LocateYear(offset - YearLength(y), y + 1)
  }

  /** The month of year `y` holding zero-based day `doy`, and the day within that month. */
  function LocateMonth(y: int, doy: int, m: Month): (r: (Month, int))
    requires DaysBeforeMonth(y, m) <= doy < YearLength(y)
    decreases 12 - m
    ensures 1 <= r.1 <= DaysInMonth(y, r.0)
    ensures DaysBeforeMonth(y, r.0) + r.1 - 1 == doy
  {
    if m == 12 then
      LastMonthFillsYear(y);
      (m, doy - DaysBeforeMonth(y, m) + 1)
    else if doy < DaysBeforeMonth(y, m) + DaysInMonth(y, m) then
      (m, doy - DaysBeforeMonth(y, m) + 1)
    else
      MonthStep(y, m);
      LocateMonth(y, doy, m + 1)
  }

  /** The calendar date of day number `n`. */
  function CivilFromDays(n: int): (d: Date)
    ensures ValidDate(d) && DayNumber(d) == n
  {
    var (y, doy) := LocateYear(n, 1970);
    var (m, day) := LocateMonth(y, doy, 1);
    Date(y, m, day)
  }

  lemma {:induction false} YearsMonotone(a: int, b: int)
    requires a < b
    ensures DaysBeforeYear(a) + YearLength(a) <= DaysBeforeYear(b)
    decreases b - a
  {
    YearStep(a);
    if a + 1 < b {
      YearsMonotone(a + 1, b);
    }
  }

  lemma {:induction false} MonthsMonotone(y: int, a: Month, b: Month)
    requires a < b
    ensures DaysBeforeMonth(y, a) + DaysInMonth(y, a) <= DaysBeforeMonth(y, b)
    decreases b - a
  {
    MonthStep(y, a);
    if a + 1 < b {
      MonthsMonotone(y, a + 1, b);
    }
  }

  /** Distinct valid dates have distinct day numbers. */
  lemma DayNumberInjective(a: Date, b: Date)
    requires ValidDate(a) && ValidDate(b) && DayNumber(a) == DayNumber(b)
    ensures a == b
  {
    LastMonthFillsYear(a.year);
    LastMonthFillsYear(b.year);
    if a.month < 12 { MonthsMonotone(a.year, a.month, 12); }
    if b.month < 12 { MonthsMonotone(b.year, b.month, 12); }
    if a.year < b.year {
      YearsMonotone(a.year, b.year);
      assert false;
    } else if b.year < a.year {
      YearsMonotone(b.year, a.year);
      assert false;
    }
    if a.month < b.month {
      MonthsMonotone(a.year, a.month, b.month);
      assert false;
    } else if b.month < a.month {
      MonthsMonotone(a.year, b.month, a.month);
      assert false;
    }
  }

  /** Converting a valid date to its day number and back gives the date again. */
  lemma DateRoundTrip(d: Date)
    requires ValidDate(d)
    ensures CivilFromDays(DayNumber(d)) == d
  {
    DayNumberInjective(CivilFromDays(DayNumber(d)), d);
  }

  /** The calendar walks one day at a time: the day after the last of a month is the first of the next. */
  function FirstOfNextMonth(y: int, m: Month): (d: Date)
    ensures ValidDate(d) && d.day == 1
    ensures DayNumber(d) == DayNumber(Date(y, m, DaysInMonth(y, m))) + 1
  {
    if m == 12 then
      YearStep(y);
      LastMonthFillsYear(y);
      Date(y + 1, 1, 1)
    else
      MonthStep(y, m);
      Date(y, m + 1, 1)
  }
}
