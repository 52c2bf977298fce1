/**
 * The weekday resolver: Indonesian weekday names to `Date.getDay()` numbers,
 * and the search for the next date that falls on one of a list of weekdays.
 */
module DayMapping {
  import opened Wrappers
  import opened Dates

  /** Lower-case Indonesian weekday names and their numbers (0 = Sunday). */
  const DayNameToNum: map<string, Weekday> :=
    map["minggu" := 0, "senin" := 1, "selasa" := 2, "rabu" := 3,
        "kamis" := 4, "jumat" := 5, "sabtu" := 6]

  /** The table names every weekday exactly once. */
  lemma NameTableIsBijection()
    ensures DayNameToNum.Keys ==
            {"minggu", "senin", "selasa", "rabu", "kamis", "jumat", "sabtu"}
    ensures forall a, b :: a in DayNameToNum && b in DayNameToNum && DayNameToNum[a] == DayNameToNum[b] ==> a == b
    ensures DayNameToNum.Values == {0, 1, 2, 3, 4, 5, 6}
  {
  }

  /** ASCII lower-casing, as `String.prototype.toLowerCase` does on ASCII letters. */
  function LowerChar(c: char): char {
    if 'A' <= c <= 'Z' then (c as int + 32) as char else c
  }

  function ToLower(s: string): string {
    seq(|s|, i requires 0 <= i < |s| => LowerChar(s[i]))
  }

  /** Looks a weekday name up case-insensitively; `None` is the table's `undefined`. */
  function LookupDay(name: string): (r: Option<Weekday>)
    ensures r.Some? <==> ToLower(name) in DayNameToNum
    ensures r.Some? ==> r.value == DayNameToNum[ToLower(name)]
  {
    var key := ToLower(name);
    if key in DayNameToNum then Some(DayNameToNum[key]) else None
  }

  /**
   * Steps forward one day at a time from `d` to the first day whose weekday is
   * listed; `bound` is a listed day not before `d`, so the walk stops there at the latest.
   */
  function Scan(d: int, dayNums: seq<Weekday>, ghost bound: int): (r: int)
    requires d <= bound && WeekdayOf(bound) in dayNums
    decreases bound - d
    ensures d <= r <= bound && WeekdayOf(r) in dayNums
    ensures forall e :: d <= e < r ==> WeekdayOf(e) !in dayNums
  {
    if WeekdayOf(d) in dayNums then d else Scan(d + 1, dayNums, bound)
  }

  /**
   * `nextMatchingDate`: the next day whose weekday is listed, `start` itself
   * when that is allowed and matches, otherwise a later day at most a week on.
   * An empty list makes the source loop forever, hence the precondition.
   */
  function NextMatchingDate(start: int, dayNums: seq<Weekday>, allowSameDay: bool): (r: int)
    requires |dayNums| > 0
    ensures WeekdayOf(r) in dayNums
    ensures allowSameDay && WeekdayOf(start) in dayNums ==> r == start
    ensures !(allowSameDay && WeekdayOf(start) in dayNums) ==> start < r <= start + 7
    ensures forall e :: start < e < r ==> WeekdayOf(e) !in dayNums
  {
    if allowSameDay && WeekdayOf(start) in dayNums then start
    else Scan(start + 1, dayNums, NextWithWeekday(start + 1, dayNums[0]))
  }

  /**
   * The search result is the only day with its three defining properties:
   * listed weekday, not before `start` (strictly after unless `start` itself
   * may match), and no listed weekday in between.
   */
  lemma NextMatchingDateIsUnique(start: int, dayNums: seq<Weekday>, allowSameDay: bool, d: int)
    requires |dayNums| > 0
    requires WeekdayOf(d) in dayNums
    requires if allowSameDay && WeekdayOf(start) in dayNums then d == start else start < d
    requires forall e :: start < e < d ==> WeekdayOf(e) !in dayNums
    ensures NextMatchingDate(start, dayNums, allowSameDay) == d
  {
    var r := NextMatchingDate(start, dayNums, allowSameDay);
    if r < d {
      assert false;
    } else if d < r {
      assert false;
    }
  }
}
