/**
 * Orders: payload validation, creation (with the model hook's id), the
 * approval that opens a subscription, its first invoice and its first batch
 * of sessions, the status listing, and the hook that copies an order's
 * tutor and package onto its subscription.
 */
module Orders {
  import opened Wrappers
  import opened Dates
  import opened Entities
  import opened DayMapping
  import opened Schedule
  import opened OrderIds

  /** An order as submitted; `meetingDay`/`mapel` are `None` when they are not lists, `time` when it is missing. */
  datatype OrderRequest = OrderRequest(
    id: Option<Id>,
    siswaId: Id,
    paketId: Id,
    tentorId: Option<Id>,
    meetingDay: Option<seq<string>>,
    time: Option<TimeOfDay>,
    mapel: Option<seq<string>>,
    status: Option<OrderStatus>)

  predicate NonEmptyList(v: Option<seq<string>>) {
    v.Some? && |v.value| > 0
  }

  /** Everything `validateOrderPayload` demands, as one condition. */
  predicate PayloadValid(s: State, req: OrderRequest) {
    && req.siswaId in s.siswas
    && req.paketId in s.pakets && s.pakets[req.paketId].status == Aktif
    && (Truthy(req.tentorId) ==>
          req.tentorId.value in s.tentors && s.tentors[req.tentorId.value].status == AccountActive)
    && NonEmptyList(req.meetingDay)
    && NonEmptyList(req.mapel)
  }

  /** `validateOrderPayload`: the checks in source order; success yields the package. */
  function ValidateOrderPayload(s: State, req: OrderRequest): (r: Result<Package, Error>)
    ensures r.Success? <==> PayloadValid(s, req)
    ensures r.Success? ==> r.value == s.pakets[req.paketId]
    ensures req.siswaId !in s.siswas ==> r == Failure(StudentNotFound)
    ensures req.siswaId in s.siswas && !(req.paketId in s.pakets && s.pakets[req.paketId].status == Aktif)
            ==> r == Failure(PackageUnavailable)
    ensures !NonEmptyList(req.meetingDay) && r.Failure? ==> r.error != MapelRequired
  {
    if req.siswaId !in s.siswas then Failure(StudentNotFound)
    else if req.paketId !in s.pakets || s.pakets[req.paketId].status != Aktif then Failure(PackageUnavailable)
    else if Truthy(req.tentorId) &&
            (req.tentorId.value !in s.tentors || s.tentors[req.tentorId.value].status != AccountActive)
    then Failure(TutorUnavailable)
    else if !NonEmptyList(req.meetingDay) then Failure(MeetingDayRequired)
    else if !NonEmptyList(req.mapel) then Failure(MapelRequired)
    else Success(s.pakets[req.paketId])
  }

  /** The stored order: the status defaults to `NonApprove`; an empty tutor id is kept as given. */
  function OrderFrom(req: OrderRequest): (o: Order)
    requires req.meetingDay.Some? && req.mapel.Some? && req.time.Some?
    ensures req.status.None? ==> o.status == NonApprove
    ensures o.siswaId == req.siswaId && o.paketId == req.paketId && o.tentorId == req.tentorId
  {
    Order(req.siswaId, req.paketId, req.tentorId, req.meetingDay.value, req.time.value, req.mapel.value,
          req.status.GetOr(NonApprove))
  }

  /** The id a created order gets: its own id if it has a non-empty one, else the hook's. */
  function AssignedId(taken: set<Id>, req: OrderRequest, latest: Option<Id>): (id: Id)
    ensures Truthy(req.id) ==> id == req.id.value
    ensures !Truthy(req.id) ==>
              && id !in taken
              && exists m: nat :: StartSerial(latest) <= m && id == OrderIdFor(req.siswaId, m)
  {
    if Truthy(req.id) then req.id.value else NewOrderId(taken, req.siswaId, latest)
  }

  /**
   * `createOrder`: a valid payload becomes one new order.  `latest` is the id
   * of the student's most recent order, which the hook reads from the
   * database.  The `time` column is NOT NULL but unvalidated, so a payload
   * without it fails when the row is validated; an explicit id that is
   * taken then violates the primary key on insert.
   */
  function CreateOrder(s: State, req: OrderRequest, latest: Option<Id>): (r: Result<State, Error>)
    ensures r.Success? <==> PayloadValid(s, req) && req.time.Some? && !(Truthy(req.id) && req.id.value in s.orders)
    ensures r.Success? ==>
              var id := AssignedId(s.orders.Keys, req, latest);
              && id !in s.orders
              && r.value.orders == s.orders[id := OrderFrom(req)]
              && r.value == s.(orders := r.value.orders)
    ensures !PayloadValid(s, req) ==> r.Failure? && r.error == ValidateOrderPayload(s, req).error
    ensures PayloadValid(s, req) && req.time.None? ==> r == Failure(TimeRequired)
  {
    match ValidateOrderPayload(s, req)
    case Failure(e) => Failure(e)
    case Success(_) =>
      var id := AssignedId(s.orders.Keys, req, latest);
      if req.time.None? then Failure(TimeRequired)
      else if id in s.orders then Failure(DuplicateOrderId)
      else Success(s.(orders := s.orders[id := OrderFrom(req)]))
  }

  /**
   * Without an id of its own, a valid order with a time is always created:
   * the hook's id is never taken.  Without a time it fails on the NOT NULL
   * column.
   */
  lemma GeneratedIdNeverCollides(s: State, req: OrderRequest, latest: Option<Id>)
    requires PayloadValid(s, req) && !Truthy(req.id)
    ensures req.time.None? ==> CreateOrder(s, req, latest) == Failure(TimeRequired)
    ensures req.time.Some? ==>
              && CreateOrder(s, req, latest).Success?
              && exists m: nat :: m >= 1 && CreateOrder(s, req, latest).value.orders.Keys
                                              == s.orders.Keys + {OrderIdFor(req.siswaId, m)}
  {
    if req.time.Some? {
      var id := AssignedId(s.orders.Keys, req, latest);
      var m: nat :| StartSerial(latest) <= m && id == OrderIdFor(req.siswaId, m);
      assert CreateOrder(s, req, latest).value.orders.Keys == s.orders.Keys + {OrderIdFor(req.siswaId, m)};
    }
  }

  // ---------------------------------------------------------------------------
  // Approval
  // ---------------------------------------------------------------------------

  /** The order's tutor is set, exists and is `active`. */
  predicate HasActiveTutor(s: State, order: Order) {
    order.tentorId.Some? && order.tentorId.value in s.tentors &&
    s.tentors[order.tentorId.value].status == AccountActive
  }

  /** Everything `approveOrder` checks before it writes: order, status, package, tutor. */
  predicate ApprovalAllowed(s: State, orderId: Id) {
    && orderId in s.orders
    && s.orders[orderId].status != Approve
    && s.orders[orderId].paketId in s.pakets
    && s.pakets[s.orders[orderId].paketId].status == Aktif
    && HasActiveTutor(s, s.orders[orderId])
  }

  /** The checks of `approveOrder`, in source order; success yields the order and its package. */
  function CheckApproval(s: State, orderId: Id): (r: Result<(Order, Package), Error>)
    ensures r.Success? <==> ApprovalAllowed(s, orderId)
    ensures r.Success? ==> r.value == (s.orders[orderId], s.pakets[s.orders[orderId].paketId])
    ensures orderId !in s.orders ==> r == Failure(OrderNotFound)
    ensures orderId in s.orders && s.orders[orderId].status == Approve ==> r == Failure(AlreadyApproved)
  {
    if orderId !in s.orders then Failure(OrderNotFound)
    else
      var order := s.orders[orderId];
      if order.status == Approve then Failure(AlreadyApproved)
      else if order.paketId !in s.pakets || s.pakets[order.paketId].status != Aktif then Failure(PackageUnavailable)
      else if !HasActiveTutor(s, order) then Failure(TutorUnavailable)
      else Success((order, s.pakets[order.paketId]))
  }

  /**
   * The state after an approval has written everything: the order approved,
   * `sub` and `inv` stored under key `nextKey` and `batch` under the keys
   * after it.
   */
  function Approved(s: State, orderId: Id, sub: Subscription, inv: Invoice, batch: seq<Session>): (r: State)
    requires orderId in s.orders
    ensures var k := s.nextKey;
            && r.orders == s.orders[orderId := s.orders[orderId].(status := Approve)]
            && r.subscriptions == s.subscriptions[k := sub]
            && r.invoices == s.invoices[k := inv]
            && r.sessions == AddBatch(s.sessions, k + 1, batch)
            && r.nextKey == k + 1 + |batch|
            && r == s.(orders := r.orders, subscriptions := r.subscriptions, invoices := r.invoices,
                       sessions := r.sessions, nextKey := r.nextKey)
  {
    var k := s.nextKey;
    s.(orders := s.orders[orderId := s.orders[orderId].(status := Approve)],
       subscriptions := s.subscriptions[k := sub],
       invoices := s.invoices[k := inv],
       sessions := AddBatch(s.sessions, k + 1, batch),
       nextKey := k + 1 + |batch|)
  }

  lemma ApprovedKeepsWellFormed(s: State, orderId: Id, sub: Subscription, inv: Invoice, batch: seq<Session>)
    requires orderId in s.orders && WellFormed(s)
    ensures var r := Approved(s, orderId, sub, inv, batch);
            && WellFormed(r)
            && s.nextKey !in s.subscriptions && s.nextKey !in s.invoices
            && forall k :: k in s.sessions ==> k in r.sessions && r.sessions[k] == s.sessions[k]
  {
  }

  /** The subscription `approveOrder` creates: no `currentOrderId`, counter at the package's session count. */
  function FirstSubscription(order: Order, pkg: Package): Subscription {
    Subscription(order.siswaId, None, order.paketId, order.tentorId, pkg.totalSession, Active)
  }

  /** The invoice `approveOrder` creates: `Unpaid`, with neither student nor price. */
  function FirstInvoice(orderId: Id, k: Key, order: Order): Invoice {
    Invoice(orderId, k, order.paketId, None, None, Unpaid, None, None)
  }

  /**
   * `approveOrder`: a not yet approved order with an `Aktif` package and an
   * `active` tutor becomes `Approve`, and one subscription, one `Unpaid`
   * invoice and the first batch of sessions are created.  Any failure,
   * the generator's included, leaves the state as it was.
   */
  function ApproveOrder(s: State, orderId: Id, today: int): (r: Result<State, Error>)
    ensures r.Success? <==>
              ApprovalAllowed(s, orderId) &&
              CanGenerate(s.orders[orderId], s.pakets[s.orders[orderId].paketId])
    ensures orderId !in s.orders ==> r == Failure(OrderNotFound)
    ensures orderId in s.orders && s.orders[orderId].status == Approve ==> r == Failure(AlreadyApproved)
    ensures r.Success? ==>
              var order := s.orders[orderId];
              var pkg := s.pakets[order.paketId];
              var k := s.nextKey;
              exists batch ::
                && IsBatchFor(batch, order, pkg, k, k, today)
                && r.value == Approved(s, orderId, FirstSubscription(order, pkg), FirstInvoice(orderId, k, order), batch)
  {
    match CheckApproval(s, orderId)
    case Failure(e) => Failure(e)
    case Success((order, pkg)) =>
      var k := s.nextKey;
      var generated := Generate(order, pkg, k, k, today);
      if generated.Failure? then Failure(generated.error)
      else
        var batch := generated.value;
        assert IsBatchFor(batch, order, pkg, k, k, today);
        Success(Approved(s, orderId, FirstSubscription(order, pkg), FirstInvoice(orderId, k, order), batch))
  }

  /**
   * The approval as evidently intended: the same checks and writes, but the
   * subscription records the order in `currentOrderId` and the invoice
   * records the student, which the renewal and the payment later read.
   */
  function ApproveOrderIntended(s: State, orderId: Id, today: int): (r: Result<State, Error>)
    ensures r.Success? <==>
              ApprovalAllowed(s, orderId) &&
              CanGenerate(s.orders[orderId], s.pakets[s.orders[orderId].paketId])
    ensures r.Success? ==>
              var order := s.orders[orderId];
              var pkg := s.pakets[order.paketId];
              var k := s.nextKey;
              exists batch ::
                && IsBatchFor(batch, order, pkg, k, k, today)
                && r.value == Approved(s, orderId,
                                       FirstSubscription(order, pkg).(currentOrderId := Some(orderId)),
                                       FirstInvoice(orderId, k, order).(siswaId := Some(order.siswaId)),
                                       batch)
  {
    match CheckApproval(s, orderId)
    case Failure(e) => Failure(e)
    case Success((order, pkg)) =>
      var k := s.nextKey;
      var generated := Generate(order, pkg, k, k, today);
      if generated.Failure? then Failure(generated.error)
      else
        var batch := generated.value;
        assert IsBatchFor(batch, order, pkg, k, k, today);
        Success(Approved(s, orderId, FirstSubscription(order, pkg).(currentOrderId := Some(orderId)),
                         FirstInvoice(orderId, k, order).(siswaId := Some(order.siswaId)), batch))
  }

  /** A second approval of the same order fails, so it creates no second subscription, invoice or batch. */
  lemma ApproveOrderOnce(s: State, orderId: Id, today: int, later: int)
    requires ApproveOrder(s, orderId, today).Success?
    ensures ApproveOrder(ApproveOrder(s, orderId, today).value, orderId, later) == Failure(AlreadyApproved)
  {
    var order := s.orders[orderId];
    var pkg := s.pakets[order.paketId];
    var k := s.nextKey;
    var batch :| && IsBatchFor(batch, order, pkg, k, k, today)
                 && ApproveOrder(s, orderId, today).value
                    == Approved(s, orderId, FirstSubscription(order, pkg), FirstInvoice(orderId, k, order), batch);
  }

  /** Approval keeps every key below `nextKey` and leaves the existing sessions alone. */
  lemma ApproveOrderKeepsWellFormed(s: State, orderId: Id, today: int)
    requires WellFormed(s) && ApproveOrder(s, orderId, today).Success?
    ensures var r := ApproveOrder(s, orderId, today).value;
            && WellFormed(r)
            && s.nextKey !in s.subscriptions && s.nextKey in r.subscriptions
            && s.nextKey !in s.invoices && s.nextKey in r.invoices
            && forall k :: k in s.sessions ==> k in r.sessions && r.sessions[k] == s.sessions[k]
  {
    var order := s.orders[orderId];
    var pkg := s.pakets[order.paketId];
    var k := s.nextKey;
    var batch :| && IsBatchFor(batch, order, pkg, k, k, today)
                 && ApproveOrder(s, orderId, today).value
                    == Approved(s, orderId, FirstSubscription(order, pkg), FirstInvoice(orderId, k, order), batch);
    ApprovedKeepsWellFormed(s, orderId, FirstSubscription(order, pkg), FirstInvoice(orderId, k, order), batch);
  }

  // ---------------------------------------------------------------------------
  // Listing
  // ---------------------------------------------------------------------------

  /** The ENUM spelling of an order status. */
  function StatusName(st: OrderStatus): string {
    match st
    case NonApprove => "NonApprove"
    case Approve => "Approve"
    case Reject => "Reject"
  }

  /**
   * The status filter as the database applies it: the column's collation
   * ignores letter case, so `"approve"` matches `Approve`.
   */
  predicate StatusMatches(st: OrderStatus, filter: string) {
    ToLower(StatusName(st)) == ToLower(filter)
  }

  /**
   * The ids `findAll` returns for `filter`: all of them for `"all"` (the
   * service's own, exact test), else those whose status matches `filter`.
   */
  function Listing(s: State, filter: string): set<Id> {
    set id | id in s.orders && (filter == "all" || StatusMatches(s.orders[id].status, filter))
  }

  /** `getAllOrder`: the listing for `filter`; an empty listing is an error. */
  function GetAllOrder(s: State, filter: string): (r: Result<set<Id>, Error>)
    ensures r.Success? ==>
              && r.value != {}
              && forall id :: id in r.value <==>
                   id in s.orders && (filter == "all" || StatusMatches(s.orders[id].status, filter))
    ensures r.Failure? ==>
              && r.error == NoOrders
              && forall id :: id in s.orders ==> filter != "all" && !StatusMatches(s.orders[id].status, filter)
  {
    var ids := Listing(s, filter);
    if ids == {} then
      assert forall id :: id in s.orders ==> id !in ids;
      Failure(NoOrders)
    else Success(ids)
  }

  /** With at least one order, listing `"all"` yields exactly the union of the three status listings. */
  lemma AllIsUnionOfStatuses(s: State)
    requires s.orders != map[]
    ensures var all := GetAllOrder(s, "all");
            && all.Success?
            && all.value == GetAllOrder(s, "NonApprove").GetOr({}) + GetAllOrder(s, "Approve").GetOr({})
                            + GetAllOrder(s, "Reject").GetOr({})
  {
    var id :| id in s.orders;
    assert id in Listing(s, "all");
    LowerStatusNames();
    var all := Listing(s, "all");
    var parts := Listing(s, "NonApprove") + Listing(s, "Approve") + Listing(s, "Reject");
    forall x | x in all ensures x in parts {
      match s.orders[x].status
      case NonApprove => assert x in Listing(s, "NonApprove");
      case Approve => assert x in Listing(s, "Approve");
      case Reject => assert x in Listing(s, "Reject");
    }
    assert all == parts;
    assert GetAllOrder(s, "NonApprove").GetOr({}) == Listing(s, "NonApprove");
    assert GetAllOrder(s, "Approve").GetOr({}) == Listing(s, "Approve");
    assert GetAllOrder(s, "Reject").GetOr({}) == Listing(s, "Reject");
  }

  /** The lower-case spellings of the three statuses are distinct, so a filter matches at most one status. */
  lemma LowerStatusNames()
    ensures ToLower(StatusName(NonApprove)) == "nonapprove"
    ensures ToLower(StatusName(Approve)) == "approve"
    ensures ToLower(StatusName(Reject)) == "reject"
  {
    assert ToLower("NonApprove") == "nonapprove";
    assert ToLower("Approve") == "approve";
    assert ToLower("Reject") == "reject";
  }

  /** `"approve"`, `"Approve"` and `"APPROVE"` list the same orders: exactly the approved ones. */
  lemma ApproveFilterIgnoresCase(s: State)
    ensures GetAllOrder(s, "approve") == GetAllOrder(s, "Approve") == GetAllOrder(s, "APPROVE")
    ensures forall id :: id in Listing(s, "approve") <==> id in s.orders && s.orders[id].status == Approve
  {
    LowerStatusNames();
    assert ToLower("approve") == "approve";
    assert ToLower("APPROVE") == "approve";
    assert Listing(s, "approve") == Listing(s, "Approve") == Listing(s, "APPROVE");
  }

  // ---------------------------------------------------------------------------
  // The afterUpdate hook
  // ---------------------------------------------------------------------------

  predicate IsLeast(m: Key, ks: set<Key>) {
    m in ks && forall k :: k in ks ==> m <= k
  }

  lemma {:induction false} MinimumExists(ks: set<Key>)
    requires ks != {}
    ensures exists m :: IsLeast(m, ks)
    decreases |ks|
  {
    var x :| x in ks;
    var rest := ks - {x};
    if rest == {} {
      forall k | k in ks ensures x <= k {
        assert k !in rest;
      }
      assert IsLeast(x, ks);
    } else {
      MinimumExists(rest);
      var m :| IsLeast(m, rest);
      var least := if x < m then x else m;
      forall k | k in ks ensures least <= k {
        if k != x { assert k in rest; }
      }
      assert IsLeast(least, ks);
    }
  }

  /** The subscription `findOne({ where: { currentOrderId } })` returns; the smallest key stands for the database's choice. */
  function SubscriptionOfOrder(subs: map<Key, Subscription>, orderId: Id): (r: Option<Key>)
    ensures r.None? <==> forall k :: k in subs ==> subs[k].currentOrderId != Some(orderId)
    ensures r.Some? ==> r.value in subs && subs[r.value].currentOrderId == Some(orderId)
  {
    var ks := set k | k in subs && subs[k].currentOrderId == Some(orderId);
    if ks == {} then
      assert forall k :: k in subs ==> k !in ks;
      None
    else
      MinimumExists(ks);
      var m :| IsLeast(m, ks);
      Some(m)
  }

  /**
   * The `afterUpdate` hook's write: the subscription linked to `orderId`
   * through `currentOrderId`, if any, takes over `updated`'s tutor and
   * package; every other subscription, and every other field, stays.
   */
  function SyncSubscription(subs: map<Key, Subscription>, orderId: Id, updated: Order)
    : (r: map<Key, Subscription>)
    ensures r.Keys == subs.Keys
    ensures forall k :: k in subs ==>
              r[k] == subs[k].(tentorId := r[k].tentorId, paketId := r[k].paketId)
    ensures forall k :: k in subs && subs[k].currentOrderId != Some(orderId) ==> r[k] == subs[k]
    ensures SubscriptionOfOrder(subs, orderId).None? ==> r == subs
    ensures SubscriptionOfOrder(subs, orderId).Some? ==>
              var t := SubscriptionOfOrder(subs, orderId).value;
              r[t].tentorId == updated.tentorId && r[t].paketId == updated.paketId
  {
    match SubscriptionOfOrder(subs, orderId)
    case None => subs
    case Some(t) => subs[t := subs[t].(tentorId := updated.tentorId, paketId := updated.paketId)]
  }

  /**
   * Saving `updated` as order `orderId`, with the `afterUpdate` hook: the
   * sync runs only when the tutor or the package changed.  `syncFails`
   * stands for a database error inside the hook, which is logged and
   * swallowed, so the order's own update stands either way.
   */
  function SaveOrder(s: State, orderId: Id, updated: Order, syncFails: bool): (r: Result<State, Error>)
    ensures r.Success? <==> orderId in s.orders
    ensures r.Success? ==> r.value.orders == s.orders[orderId := updated]
    ensures r.Success? ==>
              var previous := s.orders[orderId];
              var changed := updated.tentorId != previous.tentorId || updated.paketId != previous.paketId;
              && (!changed || syncFails ==> r.value == s.(orders := r.value.orders))
              && (changed && !syncFails ==>
                    r.value == s.(orders := r.value.orders,
                                  subscriptions := SyncSubscription(s.subscriptions, orderId, updated)))
  {
    if orderId !in s.orders then Failure(OrderNotFound)
    else
      var previous := s.orders[orderId];
      var saved := s.(orders := s.orders[orderId := updated]);
      if (updated.tentorId == previous.tentorId && updated.paketId == previous.paketId) || syncFails
      then Success(saved)
      else Success(saved.(subscriptions := SyncSubscription(s.subscriptions, orderId, updated)))
  }

  /** An approval changes neither the tutor nor the package, so the hook has nothing to copy. */
  lemma StatusOnlySaveSkipsSync(s: State, orderId: Id, syncFails: bool)
    requires orderId in s.orders
    ensures SaveOrder(s, orderId, s.orders[orderId].(status := Approve), syncFails)
            == Success(s.(orders := s.orders[orderId := s.orders[orderId].(status := Approve)]))
  {
  }
}
