/**
 * Three places where the code as written does not do what its surroundings
 * evidently expect, each shown on the as-written definition and repaired in
 * the corrected one.
 *
 * 1. The approval creates the subscription without `currentOrderId`, which
 *    the renewal reads: the confirmation of a cycle's last session always
 *    fails.
 * 2. The approval creates the first invoice without `siswaId`, which the
 *    payment reads: the first invoice can never be paid.
 * 3. The weekday table is a plain object, so the names of the properties
 *    every object inherits pass the `undefined` test and resolve to values
 *    that are not weekdays: a meeting list of only such names leaves the
 *    date search without an exit.
 */
module Findings {
  import opened Wrappers
  import opened Dates
  import opened Entities
  import opened DayMapping
  import opened Schedule
  import opened Attendance
  import opened Payments
  import opened Orders

  // ---------------------------------------------------------------------------
  // 1. The subscription does not remember its order
  // ---------------------------------------------------------------------------

  /** A confirmation that would exhaust a subscription without a current order is refused with `OrderNotFound`. */
  lemma ExhaustingConfirmNeedsCurrentOrder(s: State, id: Key, now: Moment)
    requires ConfirmChecksPass(s, id, now) && Exhausts(s, id)
    requires SubscriptionOf(s, id).currentOrderId.None?
    ensures ConfirmPresent(s, id, now) == Failure(OrderNotFound)
  {
  }

  /**
   * As written: the subscription an approval creates has no current order,
   * so its renewal is impossible and the confirmation of its last session
   * fails.
   */
  lemma ApprovedSubscriptionCannotRenew(s: State, orderId: Id, today: int)
    requires ApproveOrder(s, orderId, today).Success?
    ensures var r := ApproveOrder(s, orderId, today).value;
            && s.nextKey in r.subscriptions
            && r.subscriptions[s.nextKey].currentOrderId.None?
            && !RenewalPossible(r, r.subscriptions[s.nextKey])
  {
    var order := s.orders[orderId];
    var pkg := s.pakets[order.paketId];
    var k := s.nextKey;
    var batch :| && IsBatchFor(batch, order, pkg, k, k, today)
                 && ApproveOrder(s, orderId, today).value
                    == Approved(s, orderId, FirstSubscription(order, pkg), FirstInvoice(orderId, k, order), batch);
  }

  /**
   * Corrected: the subscription records its order, and right after the
   * approval everything the renewal needs is in place.
   */
  lemma IntendedSubscriptionCanRenew(s: State, orderId: Id, today: int)
    requires ApproveOrderIntended(s, orderId, today).Success?
    ensures var r := ApproveOrderIntended(s, orderId, today).value;
            && s.nextKey in r.subscriptions
            && r.subscriptions[s.nextKey].currentOrderId == Some(orderId)
            && RenewalPossible(r, r.subscriptions[s.nextKey])
  {
    var order := s.orders[orderId];
    var pkg := s.pakets[order.paketId];
    var k := s.nextKey;
    var batch :| && IsBatchFor(batch, order, pkg, k, k, today)
                 && ApproveOrderIntended(s, orderId, today).value
                    == Approved(s, orderId, FirstSubscription(order, pkg).(currentOrderId := Some(orderId)),
                                FirstInvoice(orderId, k, order).(siswaId := Some(order.siswaId)), batch);
    var r := ApproveOrderIntended(s, orderId, today).value;
    assert r.orders[orderId] == order.(status := Approve);
  }

  // ---------------------------------------------------------------------------
  // 2. The first invoice does not name its student
  // ---------------------------------------------------------------------------

  /** As written: the invoice an approval creates can never be paid; the payment fails with `StudentNotFound`. */
  lemma FirstInvoiceCannotBePaid(s: State, orderId: Id, today: int, proof: Option<string>, now: Moment)
    requires ApproveOrder(s, orderId, today).Success?
    ensures var r := ApproveOrder(s, orderId, today).value;
            && s.nextKey in r.invoices
            && PayInvoice(r, s.nextKey, proof, now) == Failure(StudentNotFound)
  {
    var order := s.orders[orderId];
    var pkg := s.pakets[order.paketId];
    var k := s.nextKey;
    var batch :| && IsBatchFor(batch, order, pkg, k, k, today)
                 && ApproveOrder(s, orderId, today).value
                    == Approved(s, orderId, FirstSubscription(order, pkg), FirstInvoice(orderId, k, order), batch);
  }

  /** Corrected: the first invoice names the order's student and can be paid whenever that student exists. */
  lemma IntendedFirstInvoiceCanBePaid(s: State, orderId: Id, today: int, proof: Option<string>, now: Moment)
    requires ApproveOrderIntended(s, orderId, today).Success?
    requires s.orders[orderId].siswaId in s.siswas
    ensures var r := ApproveOrderIntended(s, orderId, today).value;
            && s.nextKey in r.invoices
            && r.invoices[s.nextKey].siswaId == Some(s.orders[orderId].siswaId)
            && PayInvoice(r, s.nextKey, proof, now).Success?
  {
    var order := s.orders[orderId];
    var pkg := s.pakets[order.paketId];
    var k := s.nextKey;
    var batch :| && IsBatchFor(batch, order, pkg, k, k, today)
                 && ApproveOrderIntended(s, orderId, today).value
                    == Approved(s, orderId, FirstSubscription(order, pkg).(currentOrderId := Some(orderId)),
                                FirstInvoice(orderId, k, order).(siswaId := Some(order.siswaId)), batch);
  }

  // ---------------------------------------------------------------------------
  // 3. Inherited property names pass the weekday lookup
  // ---------------------------------------------------------------------------

  /** What indexing the weekday table yields: a weekday number, or an inherited value that is no number. */
  datatype Looked = Day(w: Weekday) | Inherited

  /** The lower-case names of the properties every plain object inherits and that lower-casing can produce. */
  const InheritedNames: set<string> := {"constructor", "__proto__"}

  /** As written: the table lookup, where an inherited property is found too; `None` is `undefined`. */
  function LookupAsWritten(name: string): (r: Option<Looked>)
    ensures r.Some? <==> ToLower(name) in DayNameToNum || ToLower(name) in InheritedNames
    ensures ToLower(name) in DayNameToNum ==> r == Some(Day(DayNameToNum[ToLower(name)]))
    ensures ToLower(name) in InheritedNames ==> r == Some(Inherited)
  {
    var key := ToLower(name);
    if key in DayNameToNum then Some(Day(DayNameToNum[key]))
    else if key in InheritedNames then Some(Inherited)
    else None
  }

  /** As written: maps every name through the table, failing on the first that yields `undefined`. */
  function LookupAllAsWritten(names: seq<string>): (r: Result<seq<Looked>, Error>)
    ensures r.Success? <==> forall i :: 0 <= i < |names| ==> LookupAsWritten(names[i]).Some?
    ensures r.Success? ==> |r.value| == |names| &&
                           forall i :: 0 <= i < |names| ==> LookupAsWritten(names[i]) == Some(r.value[i])
  {
    if |names| == 0 then Success([])
    else
      match LookupAsWritten(names[0])
      case None => Failure(UnknownDayName(names[0]))
      case Some(v) =>
        match LookupAllAsWritten(names[1..])
        case Failure(e) =>
          assert forall i :: 1 <= i < |names| ==> names[i] == names[1..][i - 1];
          Failure(e)
        case Success(vs) => Success([v] + vs)
  }

  /** As written: the meeting-day check of the generator, which refuses an empty list and `undefined` only. */
  function ResolveAsWritten(names: seq<string>): (r: Result<seq<Looked>, Error>)
    ensures r.Success? <==> |names| > 0 && forall i :: 0 <= i < |names| ==> LookupAsWritten(names[i]).Some?
    ensures r.Success? ==> |r.value| == |names| &&
                           forall i :: 0 <= i < |names| ==> LookupAsWritten(names[i]) == Some(r.value[i])
  {
    if |names| == 0 then Failure(InvalidMeetingDays) else LookupAllAsWritten(names)
  }

  /** The date search stops at day `d` when some resolved entry is `d`'s weekday. */
  predicate StopsAt(looked: seq<Looked>, d: int) {
    exists i :: 0 <= i < |looked| && looked[i] == Day(WeekdayOf(d))
  }

  /** The weekdays among the looked-up entries; the inherited entries contribute none. */
  function RealDays(looked: seq<Looked>): (ws: seq<Weekday>)
    ensures forall w :: w in ws <==> Day(w) in looked
  {
    if |looked| == 0 then []
    else
      var rest := RealDays(looked[1..]);
      assert forall x :: x in looked[1..] ==> x in looked;
      assert forall x :: x in looked ==> x == looked[0] || x in looked[1..];
      match looked[0]
      case Day(w) => [w] + rest
      case Inherited => rest
  }

  /** The search stops at `d` exactly when `d`'s weekday is one of the real weekdays looked up. */
  lemma StopsAtRealDays(looked: seq<Looked>, d: int)
    ensures StopsAt(looked, d) <==> WeekdayOf(d) in RealDays(looked)
  {
    if Day(WeekdayOf(d)) in looked {
      var i :| 0 <= i < |looked| && looked[i] == Day(WeekdayOf(d));
    }
  }

  lemma {:induction false} OnlyInheritedHasNoRealDays(looked: seq<Looked>)
    requires forall i :: 0 <= i < |looked| ==> looked[i] == Inherited
    ensures RealDays(looked) == []
  {
    if |looked| > 0 {
      OnlyInheritedHasNoRealDays(looked[1..]);
    }
  }

  /**
   * As written: every non-empty meeting list made of inherited names only
   * (`["constructor"]`, say) passes the check, yet no day ever matches it,
   * so the generator's day-by-day search never ends.
   */
  lemma InheritedNamePassesCheck(names: seq<string>)
    requires |names| > 0
    requires forall i :: 0 <= i < |names| ==> ToLower(names[i]) in InheritedNames
    ensures ResolveAsWritten(names).Success?
    ensures RealDays(ResolveAsWritten(names).value) == []
    ensures forall d :: !StopsAt(ResolveAsWritten(names).value, d)
  {
    assert forall n :: n in InheritedNames ==> n !in DayNameToNum;
    forall i | 0 <= i < |names|
      ensures LookupAsWritten(names[i]) == Some(Inherited)
    {
    }
    var v := ResolveAsWritten(names).value;
    assert forall i :: 0 <= i < |v| ==> v[i] == Inherited;
    OnlyInheritedHasNoRealDays(v);
    forall d ensures !StopsAt(v, d) {
      assert forall i :: 0 <= i < |v| ==> v[i] != Day(WeekdayOf(d));
    }
  }

  /**
   * As written: a list that mixes real and inherited names passes the check,
   * and the search stops exactly on the weekdays of its real names; the
   * inherited names are silently dropped.
   */
  lemma MixedListStopsOnRealDays(names: seq<string>, d: int)
    requires ResolveAsWritten(names).Success?
    ensures StopsAt(ResolveAsWritten(names).value, d) <==>
              exists i :: 0 <= i < |names| && LookupDay(names[i]) == Some(WeekdayOf(d))
  {
    var v := ResolveAsWritten(names).value;
    var w := WeekdayOf(d);
    if StopsAt(v, d) {
      var i :| 0 <= i < |v| && v[i] == Day(w);
      assert LookupAsWritten(names[i]) == Some(Day(w));
      assert LookupDay(names[i]) == Some(w);
    }
    if exists i :: 0 <= i < |names| && LookupDay(names[i]) == Some(w) {
      var i :| 0 <= i < |names| && LookupDay(names[i]) == Some(w);
      assert LookupAsWritten(names[i]) == Some(v[i]);
      assert v[i] == Day(w);
    }
  }

  /**
   * As written: `["senin", "constructor"]` passes the check and schedules on
   * Mondays only, while the corrected lookup refuses the list.
   */
  lemma MondayAndConstructor(d: int)
    ensures ResolveAsWritten(["senin", "constructor"]).Success?
    ensures StopsAt(ResolveAsWritten(["senin", "constructor"]).value, d) <==> WeekdayOf(d) == 1
    ensures ResolveDays(["senin", "constructor"]) == Failure(UnknownDayName("constructor"))
  {
    var names := ["senin", "constructor"];
    assert ToLower("senin") == "senin";
    assert ToLower("constructor") == "constructor";
    assert LookupAsWritten(names[0]) == Some(Day(1));
    assert LookupAsWritten(names[1]) == Some(Inherited);
    assert LookupDay(names[0]) == Some(1);
    assert LookupDay(names[1]).None?;
    MixedListStopsOnRealDays(names, d);
  }

  /**
   * Corrected: only the table's own names resolve, so every list the check
   * lets through names a weekday and the search stops within a week.
   */
  lemma OwnNamesOnly(names: seq<string>, start: int, allowSameDay: bool)
    ensures forall n :: n in InheritedNames ==> LookupDay(n).None?
    ensures ResolveDays(["constructor"]) == Failure(UnknownDayName("constructor"))
    ensures ResolveDays(names).Success? ==>
              var r := NextMatchingDate(start, ResolveDays(names).value, allowSameDay);
              start <= r <= start + 7 && WeekdayOf(r) in ResolveDays(names).value
  {
    assert ToLower("constructor") == "constructor";
    assert ToLower("__proto__") == "__proto__";
    assert LookupDay(["constructor"][0]).None?;
  }
}
