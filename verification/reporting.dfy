/**
 * The reporting windows of the transaction reports (`getDateRange`): the
 * current day, the Monday-to-Sunday week and the calendar month around
 * `now`, each from 00:00:00.000 of its first day to 23:59:59.999 of its last.
 */
module Reporting {
  import opened Wrappers
  import opened Dates
  import opened Entities

  /** A closed interval of moments. */
  datatype Range = Range(start: Moment, end: Moment)

  /** The whole of the days `first` to `last`. */
  function DaysRange(first: int, last: int): (r: Range)
    ensures r.start == Moment(first, 0) && r.end == Moment(last, LastMsOfDay)
  {
    Range(Moment(first, 0), Moment(last, LastMsOfDay))
  }

  /** The Monday on or before day `d`; a Sunday goes back six days. */
  function WeekStart(d: int): (m: int)
    ensures d - 6 <= m <= d && WeekdayOf(m) == 1
  {
    var dow := WeekdayOf(d);
    d - dow + (if dow == 0 then -6 else 1)
  }

  /** The first day of the month of day `d`. */
  function MonthStart(d: int): int {
    var c := CivilFromDays(d);
    DayNumber(Date(c.year, c.month, 1))
  }

  /**
   * The last day of the month of day `d`, reached as day zero of the next
   * month, the way the source asks for it.
   */
  function MonthEnd(d: int): int {
    var c := CivilFromDays(d);
    DayNumber(FirstOfNextMonth(c.year, c.month)) - 1
  }

  /** `getDateRange`: the reporting window named by `period`; any other name is refused. */
  function GetDateRange(period: string, now: Moment): (r: Result<Range, Error>)
    ensures r.Success? <==> period == "day" || period == "week" || period == "month"
    ensures r.Failure? ==> r.error == InvalidPeriod
    ensures r.Success? ==>
              && r.value.start.ms == 0 && r.value.end.ms == LastMsOfDay
              && AtOrBefore(r.value.start, now) && AtOrBefore(now, r.value.end)
    ensures period == "day" ==> r.Success? && r.value.start.day == now.day == r.value.end.day
    ensures period == "week" ==>
              && r.Success?
              && WeekdayOf(r.value.start.day) == 1 && WeekdayOf(r.value.end.day) == 0
              && r.value.end.day == r.value.start.day + 6
  {
    if period == "day" then Success(DaysRange(now.day, now.day))
    else if period == "week" then
      var first := WeekStart(now.day);
      Success(DaysRange(first, first + 6))
    else if period == "month" then
      MonthBounds(now.day);
      Success(DaysRange(MonthStart(now.day), MonthEnd(now.day)))
    else Failure(InvalidPeriod)
  }

  /** Month `c` runs from its first day to its `DaysInMonth`-th, one day number after another. */
  lemma MonthBounds(d: int)
    ensures var c := CivilFromDays(d);
            && MonthStart(d) <= d <= MonthEnd(d)
            && MonthEnd(d) == DayNumber(Date(c.year, c.month, DaysInMonth(c.year, c.month)))
            && MonthEnd(d) - MonthStart(d) + 1 == DaysInMonth(c.year, c.month)
  {
  }

  /** A day lies in the week window exactly when it falls in the same Monday-to-Sunday week as `now`. */
  lemma WeekIsNowsWeek(now: Moment, d: int)
    ensures var r := GetDateRange("week", now).value;
            r.start.day <= d <= r.end.day <==> WeekStart(d) == WeekStart(now.day)
  {
    var w := WeekStart(now.day);
    var v := WeekStart(d);
    // Two Mondays are a multiple of seven days apart.
    assert (v - w) % 7 == 0 by {
      assert WeekdayOf(v) == WeekdayOf(w);
    }
  }

  /** A day lies in the month window exactly when it falls in the same calendar month as `now`. */
  lemma MonthIsNowsMonth(now: Moment, d: int)
    ensures var r := GetDateRange("month", now).value;
            var c := CivilFromDays(d);
            var n := CivilFromDays(now.day);
            r.start.day <= d <= r.end.day <==> c.year == n.year && c.month == n.month
  {
    var c := CivilFromDays(d);
    var n := CivilFromDays(now.day);
    MonthBounds(now.day);
    if MonthStart(now.day) <= d <= MonthEnd(now.day) {
      var inMonth := Date(n.year, n.month, d - MonthStart(now.day) + 1);
      assert ValidDate(inMonth) && DayNumber(inMonth) == d;
      DateRoundTrip(inMonth);
    }
  }
}
