/**
 * The session generator (`generateJadwal`): turns an order's weekday names,
 * time and a package's session count into a batch of `Absent` sessions on the
 * first matching days from today on.
 */
module Schedule {
  import opened Wrappers
  import opened Dates
  import opened DayMapping
  import opened Entities

  /** Display names stored in a session's `dayName`, indexed by weekday number. */
  const WeekdayNames: seq<string> :=
    ["Minggu", "Senin", "Selasa", "Rabu", "Kamis", "Jumat", "Sabtu"]

  /** Every display name is found again by the case-insensitive lookup, and vice versa. */
  lemma NameTableInvertsWeekdayNames()
    ensures |WeekdayNames| == 7
    ensures forall w: Weekday :: LookupDay(WeekdayNames[w]) == Some(w)
    ensures forall n :: n in DayNameToNum ==> ToLower(WeekdayNames[DayNameToNum[n]]) == n
  {
    assert ToLower("Minggu") == "minggu";
    assert ToLower("Senin") == "senin";
    assert ToLower("Selasa") == "selasa";
    assert ToLower("Rabu") == "rabu";
    assert ToLower("Kamis") == "kamis";
    assert ToLower("Jumat") == "jumat";
    assert ToLower("Sabtu") == "sabtu";
  }

  /**
   * Maps every name through the table, failing on the first name it does not
   * know (the source's `map` throws there).
   */
  function ResolveNames(names: seq<string>): (r: Result<seq<Weekday>, Error>)
    ensures r.Success? <==> forall i :: 0 <= i < |names| ==> LookupDay(names[i]).Some?
    ensures r.Success? ==> |r.value| == |names| &&
                           forall i :: 0 <= i < |names| ==> LookupDay(names[i]) == Some(r.value[i])
    ensures r.Failure? ==> exists i :: 0 <= i < |names| && LookupDay(names[i]).None? &&
                                       r.error == UnknownDayName(names[i]) &&
                                       forall k :: 0 <= k < i ==> LookupDay(names[k]).Some?
  {
    if |names| == 0 then Success([])
    else
      match LookupDay(names[0])
      case None => Failure(UnknownDayName(names[0]))
      case Some(w) =>
        match ResolveNames(names[1..])
        case Failure(e) =>
          assert forall i :: 1 <= i < |names| ==> names[i] == names[1..][i - 1];
          Failure(e)
        case Success(ws) => Success([w] + ws)
  }

  /** The `meetingDay` validation of the generator: a non-empty list of known names. */
  function ResolveDays(meetingDay: seq<string>): (r: Result<seq<Weekday>, Error>)
    ensures r.Success? <==> |meetingDay| > 0 && forall i :: 0 <= i < |meetingDay| ==> LookupDay(meetingDay[i]).Some?
    ensures r.Success? ==> |r.value| == |meetingDay| > 0
    ensures |meetingDay| == 0 ==> r == Failure(InvalidMeetingDays)
  {
    if |meetingDay| == 0 then Failure(InvalidMeetingDays) else ResolveNames(meetingDay)
  }

  /**
   * The generator loop: the first date may be `cursor` itself when `first`
   * holds, every later date is searched strictly after the previous one.
   */
  function GenerateDates(cursor: int, dayNums: seq<Weekday>, count: nat, first: bool): (ds: seq<int>)
    requires |dayNums| > 0
    decreases count
    ensures |ds| == count
  {
    if count == 0 then []
    else
      var d := NextMatchingDate(cursor, dayNums, first);
      [d] + GenerateDates(d, dayNums, count - 1, false)
  }

  predicate Increasing(ds: seq<int>) {
    forall i, j :: 0 <= i < j < |ds| ==> ds[i] < ds[j]
  }

  /** No listed day from `from` up to the last of `ds` is missing from `ds`. */
  ghost predicate NoneSkipped(ds: seq<int>, from: int, dayNums: seq<Weekday>) {
    forall e :: |ds| > 0 && from <= e <= ds[|ds| - 1] && WeekdayOf(e) in dayNums ==> e in ds
  }

  /**
   * `ds` is, in increasing order, exactly the first `|ds|` days on or after
   * `from` whose weekday is listed in `dayNums`.
   */
  ghost predicate FirstMatchingDays(ds: seq<int>, from: int, dayNums: seq<Weekday>) {
    && Increasing(ds)
    && (forall i :: 0 <= i < |ds| ==> from <= ds[i] && WeekdayOf(ds[i]) in dayNums)
    && NoneSkipped(ds, from, dayNums)
  }

  lemma {:induction false} GenerateDatesAreFirstMatching(cursor: int, dayNums: seq<Weekday>, count: nat, first: bool)
    requires |dayNums| > 0
    ensures FirstMatchingDays(GenerateDates(cursor, dayNums, count, first),
                              if first then cursor else cursor + 1, dayNums)
    decreases count
  {
    if count > 0 {
      var from := if first then cursor else cursor + 1;
      var d := NextMatchingDate(cursor, dayNums, first);
      var tail := GenerateDates(d, dayNums, count - 1, false);
      var ds := GenerateDates(cursor, dayNums, count, first);
      assert ds == [d] + tail;
      GenerateDatesAreFirstMatching(d, dayNums, count - 1, false);
      assert from <= d;
      IncreasingCons(d, tail);
      forall i | 0 <= i < |ds|
        ensures from <= ds[i] && WeekdayOf(ds[i]) in dayNums
      {
        if i > 0 {
          assert ds[i] == tail[i - 1];
        }
      }
      NoneSkippedCons(cursor, dayNums, first, tail);
      assert FirstMatchingDays(ds, from, dayNums);
    }
  }

  lemma IncreasingCons(d: int, tail: seq<int>)
    requires Increasing(tail)
    requires forall i :: 0 <= i < |tail| ==> d < tail[i]
    ensures Increasing([d] + tail)
  {
    var ds := [d] + tail;
    forall i, j | 0 <= i < j < |ds|
      ensures ds[i] < ds[j]
    {
      assert ds[j] == tail[j - 1];
      if i > 0 {
        assert ds[i] == tail[i - 1];
      }
    }
  }

  lemma NoneSkippedCons(cursor: int, dayNums: seq<Weekday>, first: bool, tail: seq<int>)
    requires |dayNums| > 0
    requires NoneSkipped(tail, NextMatchingDate(cursor, dayNums, first) + 1, dayNums)
    ensures NoneSkipped([NextMatchingDate(cursor, dayNums, first)] + tail,
                        if first then cursor else cursor + 1, dayNums)
  {
    var d := NextMatchingDate(cursor, dayNums, first);
    var ds := [d] + tail;
    var from := if first then cursor else cursor + 1;
    forall e | from <= e <= ds[|ds| - 1] && WeekdayOf(e) in dayNums
      ensures e in ds
    {
      if e < d {
        assert false;
      } else if e > d {
        assert tail[|tail| - 1] == ds[|ds| - 1];
        assert e in tail;
      }
    }
  }

  /**
   * A worked example: from a Thursday, four sessions on Mondays and
   * Wednesdays fall on the next Monday, Wednesday, Monday and Wednesday.
   */
  lemma MondayWednesdayFromThursday(t: int)
    requires WeekdayOf(t) == 4
    ensures GenerateDates(t, [1, 3], 4, true) == [t + 4, t + 6, t + 11, t + 13]
  {
    var dn: seq<Weekday> := [1, 3];
    forall e | t <= e <= t + 13
      ensures WeekdayOf(e) == (e - t + 4) % 7
    {
    }
    forall e | t < e < t + 4 ensures WeekdayOf(e) !in dn { }
    NextMatchingDateIsUnique(t, dn, true, t + 4);
    forall e | t + 4 < e < t + 6 ensures WeekdayOf(e) !in dn { }
    NextMatchingDateIsUnique(t + 4, dn, false, t + 6);
    forall e | t + 6 < e < t + 11 ensures WeekdayOf(e) !in dn { }
    NextMatchingDateIsUnique(t + 6, dn, false, t + 11);
    forall e | t + 11 < e < t + 13 ensures WeekdayOf(e) !in dn { }
    NextMatchingDateIsUnique(t + 11, dn, false, t + 13);
    assert GenerateDates(t + 13, dn, 0, false) == [];
    assert GenerateDates(t + 11, dn, 1, false) == [t + 13];
    assert GenerateDates(t + 6, dn, 2, false) == [t + 11, t + 13];
    assert GenerateDates(t + 4, dn, 3, false) == [t + 6, t + 11, t + 13];
  }

  function DatesOf(batch: seq<Session>): seq<int> {
    seq(|batch|, i requires 0 <= i < |batch| => batch[i].date)
  }

  /** The session created for `date`: copies of the order's fields, `Absent`, weekday name derived from the date. */
  function NewSession(order: Order, tutor: Id, invoiceId: Key, subscriptionId: Key, date: int): Session {
    Session(order.siswaId, tutor, invoiceId, subscriptionId, date,
            WeekdayNames[WeekdayOf(date)], order.time, Absent)
  }

  function SessionCount(pkg: Package): nat {
    if pkg.totalSession > 0 then pkg.totalSession else 0
  }

  /** What the generator asks of its inputs before it creates anything. */
  predicate CanGenerate(order: Order, pkg: Package) {
    && ResolveDays(order.meetingDay).Success?
    && (SessionCount(pkg) > 0 ==> order.tentorId.Some?)
  }

  /** The properties of every session in a generated batch. */
  ghost predicate IsBatchFor(batch: seq<Session>, order: Order, pkg: Package,
                             invoiceId: Key, subscriptionId: Key, today: int)
    requires ResolveDays(order.meetingDay).Success?
  {
    && |batch| == SessionCount(pkg)
    && FirstMatchingDays(DatesOf(batch), today, ResolveDays(order.meetingDay).value)
    && forall i :: 0 <= i < |batch| ==>
         && batch[i].siswaId == order.siswaId
         && Some(batch[i].tentorId) == order.tentorId
         && batch[i].invoiceId == invoiceId
         && batch[i].subscriptionId == subscriptionId
         && batch[i].time == order.time
         && batch[i].status == Absent
         && batch[i].dayName == WeekdayNames[WeekdayOf(batch[i].date)]
  }

  /**
   * `generateJadwal`: `totalSession` new sessions, or the error that stops it.
   * A session row needs a tutor, so a tutor-less order fails once it would
   * create a session.
   */
  function Generate(order: Order, pkg: Package, invoiceId: Key, subscriptionId: Key, today: int)
    : (r: Result<seq<Session>, Error>)
    ensures r.Success? <==> CanGenerate(order, pkg)
    ensures r.Success? ==> IsBatchFor(r.value, order, pkg, invoiceId, subscriptionId, today)
    ensures |order.meetingDay| == 0 ==> r == Failure(InvalidMeetingDays)
  {
    var dayNums :- ResolveDays(order.meetingDay);
    var count := SessionCount(pkg);
    if count > 0 && order.tentorId.None? then Failure(SessionWithoutTutor)
    else
      var dates := GenerateDates(today, dayNums, count, true);
      GenerateDatesAreFirstMatching(today, dayNums, count, true);
      var batch := seq(count, i requires 0 <= i < count =>
                         NewSession(order, order.tentorId.GetOr(""), invoiceId, subscriptionId, dates[i]));
      assert DatesOf(batch) == dates;
      Success(batch)
  }
}
