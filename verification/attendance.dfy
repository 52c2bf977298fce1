/**
 * The two-phase attendance protocol (`requestPresentJadwal`,
 * `confirmPresentJadwal`) and the subscription renewal that the confirmation
 * of a cycle's last session triggers.
 *
 * Every workflow is a function from the state to a new state or an error;
 * an error carries no state, which is the transaction's rollback.
 */
module Attendance {
  import opened Wrappers
  import opened Dates
  import opened Entities
  import opened Schedule

  /** `requestPresentJadwal`: an `Absent` session that has started becomes `PresentRequest`. */
  function RequestPresent(s: State, id: Key, now: Moment): (r: Result<State, Error>)
    ensures r.Success? <==>
              && id in s.sessions
              && s.sessions[id].siswaId in s.siswas
              && s.sessions[id].status == Absent
              && AtOrBefore(SessionStart(s.sessions[id]), now)
    ensures r.Success? ==>
              && r.value.sessions.Keys == s.sessions.Keys
              && r.value.sessions[id].status == PresentRequest
              && r.value.sessions[id] == s.sessions[id].(status := r.value.sessions[id].status)
              && (forall k :: k in s.sessions && k != id ==> r.value.sessions[k] == s.sessions[k])
              && r.value == s.(sessions := r.value.sessions)
    ensures r.Success? && WellFormed(s) ==> WellFormed(r.value)
  {
    if id !in s.sessions then Failure(SessionNotFound)
    else
      var j := s.sessions[id];
      if j.siswaId !in s.siswas then Failure(StudentNotFound)
      else if j.status != Absent then Failure(AttendanceAlreadyRequested)
      else if Before(now, SessionStart(j)) then Failure(NotYetStarted)
      else Success(s.(sessions := s.sessions[id := j.(status := PresentRequest)]))
  }

  /** The partner whose wallet a renewal credits: the student's `mitraId`, if set and found. */
  function PartnerOf(s: State, student: Student): (p: Option<Id>)
    ensures p.Some? <==> Truthy(student.mitraId) && student.mitraId.value in s.mitras
    ensures p.Some? ==> p.value == student.mitraId.value
  {
    if Truthy(student.mitraId) && student.mitraId.value in s.mitras then student.mitraId else None
  }

  /** Every lookup `confirmPresentJadwal` makes before it changes anything succeeds. */
  ghost predicate ConfirmChecksPass(s: State, id: Key, now: Moment) {
    && id in s.sessions
    && s.sessions[id].status == PresentRequest
    && AtOrBefore(SessionStart(s.sessions[id]), now)
    && s.sessions[id].subscriptionId in s.subscriptions
    && s.subscriptions[s.sessions[id].subscriptionId].status == Active
    && s.sessions[id].invoiceId in s.invoices
    && s.subscriptions[s.sessions[id].subscriptionId].paketId in s.pakets
    && s.sessions[id].tentorId in s.tentors
    && s.sessions[id].siswaId in s.siswas
  }

  /** Sessions of invoice `inv` that tutor `t` has been confirmed present at. */
  function TaughtBy(s: State, inv: Key, t: Id): set<Key> {
    set k | k in s.sessions && s.sessions[k].invoiceId == inv &&
            s.sessions[k].status == Present && s.sessions[k].tentorId == t
  }

  /** Tutors with at least one `Present` session under invoice `inv`. */
  function TutorsOf(s: State, inv: Key): set<Id> {
    set k | k in s.sessions && s.sessions[k].invoiceId == inv && s.sessions[k].status == Present
          :: s.sessions[k].tentorId
  }

  lemma TutorsOfTaught(s: State, inv: Key, t: Id)
    ensures t in TutorsOf(s, inv) <==> TaughtBy(s, inv, t) != {}
  {
    if t in TutorsOf(s, inv) {
      var k :| k in s.sessions && s.sessions[k].invoiceId == inv && s.sessions[k].status == Present &&
               s.sessions[k].tentorId == t;
      assert k in TaughtBy(s, inv, t);
    }
  }

  /** One `Pending` honorarium per tutor who taught under `inv`, worth that tutor's sessions times `honorPrice`. */
  function RenewalHonors(s: State, inv: Key, siswaId: Id, honorPrice: int, batch: Key)
    : (hs: map<HonorKey, Honor>)
    ensures forall hk :: hk in hs <==> hk.batch == batch && hk.tentorId in TutorsOf(s, inv)
    ensures forall t :: t in TutorsOf(s, inv) ==>
              hs[HonorKey(batch, t)] ==
              Honor(t, siswaId, inv, |TaughtBy(s, inv, t)| * honorPrice, Pending, Pending, None)
  {
    map t | t in TutorsOf(s, inv) :: HonorKey(batch, t) :=
      Honor(t, siswaId, inv, |TaughtBy(s, inv, t)| * honorPrice, Pending, Pending, None)
  }

  /** The state after the session is marked `Present` and its tutor is credited one session's honorarium. */
  function Credit(s: State, id: Key, honorPrice: int): (r: State)
    requires id in s.sessions && s.sessions[id].tentorId in s.tentors
    ensures r.sessions == s.sessions[id := s.sessions[id].(status := Present)]
    ensures var t := s.sessions[id].tentorId;
            r.tentors == s.tentors[t := s.tentors[t].(wallet := s.tentors[t].wallet + honorPrice)]
    ensures r == s.(sessions := r.sessions, tentors := r.tentors)
  {
    var j := s.sessions[id];
    var tutor := s.tentors[j.tentorId];
    s.(sessions := s.sessions[id := j.(status := Present)],
       tentors := s.tentors[j.tentorId := tutor.(wallet := tutor.wallet + honorPrice)])
  }

  /** The credit touches no key, so it keeps the state well formed. */
  lemma CreditKeepsWellFormed(s: State, id: Key, honorPrice: int)
    requires id in s.sessions && s.sessions[id].tentorId in s.tentors
    requires WellFormed(s)
    ensures WellFormed(Credit(s, id, honorPrice))
    ensures Credit(s, id, honorPrice).nextKey == s.nextKey
  {
  }

  /** The order a renewal reads through `currentOrderId`, if it names one. */
  function CurrentOrder(s: State, sub: Subscription): (o: Option<Order>)
    ensures o.Some? <==> sub.currentOrderId.Some? && sub.currentOrderId.value in s.orders
    ensures o.Some? ==> o.value == s.orders[sub.currentOrderId.value]
  {
    if sub.currentOrderId.Some? && sub.currentOrderId.value in s.orders
    then Some(s.orders[sub.currentOrderId.value]) else None
  }

  /** What the renewal needs: the current order, its package, and a schedulable order. */
  ghost predicate RenewalPossible(s: State, sub: Subscription) {
    && CurrentOrder(s, sub).Some?
    && CurrentOrder(s, sub).value.paketId in s.pakets
    && CanGenerate(CurrentOrder(s, sub).value, s.pakets[CurrentOrder(s, sub).value.paketId])
  }

  /**
   * The state a renewal leaves once its new sessions `batch` are known:
   * counter reset from the current order's package, tutor and package copied
   * from the order, honoraria for the closing invoice, the partner's revenue
   * share, a new `Unpaid` invoice and the batch of sessions.  `pkg` is the
   * package the closing cycle ran on; the invoice, the revenue share and the
   * honoraria take key `nextKey`, the sessions the keys after it.
   */
  function Renewed(s: State, j: Session, sub: Subscription, pkg: Package, partner: Option<Id>,
                   order: Order, newPkg: Package, batch: seq<Session>): (r: State)
    requires sub.currentOrderId.Some?
    requires partner.Some? ==> partner.value in s.mitras
    ensures var k := s.nextKey;
            && r.subscriptions ==
                 s.subscriptions[j.subscriptionId := sub.(remainingSessions := newPkg.totalSession,
                                                          tentorId := order.tentorId,
                                                          paketId := order.paketId)]
            && r.honors == s.honors + RenewalHonors(s, j.invoiceId, j.siswaId, pkg.honorPrice, k)
            && r.invoices ==
                 s.invoices[k := Invoice(sub.currentOrderId.value, j.subscriptionId, order.paketId, Some(order.siswaId),
                                         Some(newPkg.price), Unpaid, None, None)]
            && (partner.None? ==> r.mitras == s.mitras && r.proshares == s.proshares)
            && (partner.Some? ==>
                  var m := partner.value;
                  var share := pkg.prosharePrice * pkg.totalSession;
                  && r.mitras == s.mitras[m := s.mitras[m].(wallet := s.mitras[m].wallet + share)]
                  && r.proshares ==
                       s.proshares[k := Proshare(m, j.siswaId, j.invoiceId, share, Pending, Pending, None)])
            && r.sessions == AddBatch(s.sessions, k + 1, batch)
            && r.nextKey == k + 1 + |batch|
            && r.orders == s.orders && r.pakets == s.pakets
            && r.tentors == s.tentors && r.siswas == s.siswas
  {
    var k := s.nextKey;
    var share := pkg.prosharePrice * pkg.totalSession;
    s.(subscriptions := s.subscriptions[j.subscriptionId := sub.(remainingSessions := newPkg.totalSession,
                                                                 tentorId := order.tentorId,
                                                                 paketId := order.paketId)],
       honors := s.honors + RenewalHonors(s, j.invoiceId, j.siswaId, pkg.honorPrice, k),
       mitras := if partner.Some? then
                   s.mitras[partner.value := s.mitras[partner.value].(wallet := s.mitras[partner.value].wallet + share)]
                 else s.mitras,
       proshares := if partner.Some? then
                      s.proshares[k := Proshare(partner.value, j.siswaId, j.invoiceId, share, Pending, Pending, None)]
                    else s.proshares,
       invoices := s.invoices[k := Invoice(sub.currentOrderId.value, j.subscriptionId, order.paketId,
                                           Some(order.siswaId), Some(newPkg.price), Unpaid, None, None)],
       sessions := AddBatch(s.sessions, k + 1, batch),
       nextKey := k + 1 + |batch|)
  }

  /** A renewal keeps every existing session and record and only adds keys from `nextKey` on. */
  lemma RenewedKeepsWellFormed(s: State, j: Session, sub: Subscription, pkg: Package, partner: Option<Id>,
                               order: Order, newPkg: Package, batch: seq<Session>)
    requires sub.currentOrderId.Some?
    requires partner.Some? ==> partner.value in s.mitras
    requires WellFormed(s) && j.subscriptionId in s.subscriptions
    ensures var r := Renewed(s, j, sub, pkg, partner, order, newPkg, batch);
            && WellFormed(r)
            && s.nextKey < r.nextKey
            && forall k :: k in s.sessions ==> k in r.sessions && r.sessions[k] == s.sessions[k]
  {
  }

  /**
   * The renewal of an exhausted subscription, failing when the current order
   * or its package is missing or the order cannot be scheduled.
   */
  function Renew(s: State, j: Session, sub: Subscription, pkg: Package,
                 partner: Option<Id>, today: int): (r: Result<State, Error>)
    requires partner.Some? ==> partner.value in s.mitras
    ensures r.Success? <==> RenewalPossible(s, sub)
    ensures r.Success? ==>
              var order := CurrentOrder(s, sub).value;
              var newPkg := s.pakets[order.paketId];
              exists batch ::
                && IsBatchFor(batch, order, newPkg, s.nextKey, j.subscriptionId, today)
                && r.value == Renewed(s, j, sub, pkg, partner, order, newPkg, batch)
  {
    match CurrentOrder(s, sub)
    case None => Failure(OrderNotFound)
    case Some(order) =>
      if order.paketId !in s.pakets then Failure(PackageNotFound)
      else
        var newPkg := s.pakets[order.paketId];
        var generated := Generate(order, newPkg, s.nextKey, j.subscriptionId, today);
        if generated.Failure? then Failure(generated.error)
        else
          var batch := generated.value;
          assert IsBatchFor(batch, order, newPkg, s.nextKey, j.subscriptionId, today);
          Success(Renewed(s, j, sub, pkg, partner, order, newPkg, batch))
  }

  /** The subscription of session `id`. */
  function SubscriptionOf(s: State, id: Key): Subscription
    requires id in s.sessions && s.sessions[id].subscriptionId in s.subscriptions
  {
    s.subscriptions[s.sessions[id].subscriptionId]
  }

  /** Confirming session `id` brings its subscription's counter to exactly zero. */
  ghost predicate Exhausts(s: State, id: Key)
    requires id in s.sessions && s.sessions[id].subscriptionId in s.subscriptions
  {
    SubscriptionOf(s, id).remainingSessions - 1 == 0
  }

  /**
   * `confirmPresentJadwal`: a requested, started session of an active
   * subscription becomes `Present`, its tutor's wallet gains the package's
   * `honorPrice` and the counter drops by one; at zero the subscription renews.
   * Any error, the renewal's included, undoes all of it.
   */
  function ConfirmPresent(s: State, id: Key, now: Moment): (r: Result<State, Error>)
    ensures r.Success? <==>
              ConfirmChecksPass(s, id, now) &&
              (Exhausts(s, id) ==> RenewalPossible(s, SubscriptionOf(s, id)))
    ensures r.Success? ==>
              var j := s.sessions[id];
              var sub := SubscriptionOf(s, id);
              var pkg := s.pakets[sub.paketId];
              && r.value.tentors ==
                   s.tentors[j.tentorId := s.tentors[j.tentorId].(wallet := s.tentors[j.tentorId].wallet + pkg.honorPrice)]
              && (!Exhausts(s, id) ==>
                    r.value == s.(sessions := s.sessions[id := j.(status := Present)],
                                  tentors := r.value.tentors,
                                  subscriptions := s.subscriptions[j.subscriptionId :=
                                                     sub.(remainingSessions := sub.remainingSessions - 1)]))
              && (Exhausts(s, id) ==>
                    var newPkg := s.pakets[CurrentOrder(s, sub).value.paketId];
                    && r.value.subscriptions.Keys == s.subscriptions.Keys
                    && r.value.subscriptions[j.subscriptionId].remainingSessions == newPkg.totalSession
                    && r.value.invoices.Keys == s.invoices.Keys + {s.nextKey}
                    && r.value.invoices[s.nextKey].paymentStatus == Unpaid
                    && r.value.invoices[s.nextKey].price == Some(newPkg.price))
  {
    if id !in s.sessions then Failure(SessionNotFound)
    else
      var j := s.sessions[id];
      if j.status != PresentRequest then Failure(NotPresentRequest)
      else if Before(now, SessionStart(j)) then Failure(NotYetStarted)
      else if j.subscriptionId !in s.subscriptions then Failure(SubscriptionNotFound)
      else
        var sub := s.subscriptions[j.subscriptionId];
        if sub.status != Active then Failure(SubscriptionNotActive)
        else if j.invoiceId !in s.invoices then Failure(InvoiceNotFound)
        else if sub.paketId !in s.pakets then Failure(PackageNotFound)
        else if j.tentorId !in s.tentors then Failure(TutorNotFound)
        else if j.siswaId !in s.siswas then Failure(StudentNotFound)
        else
          var pkg := s.pakets[sub.paketId];
          var partner := PartnerOf(s, s.siswas[j.siswaId]);
          var credited := Credit(s, id, pkg.honorPrice);
          var sub' := sub.(remainingSessions := sub.remainingSessions - 1);
          // The source also requires status != NonActive here, which the check above already ensures.
          if sub'.remainingSessions == 0 then
            Renew(credited, j, sub', pkg, partner, now.day)
          else
            Success(credited.(subscriptions := credited.subscriptions[j.subscriptionId := sub']))
  }

  /** A renewal keeps every existing session and draws its new keys from `nextKey`. */
  lemma RenewKeepsWellFormed(s: State, j: Session, sub: Subscription, pkg: Package,
                             partner: Option<Id>, today: int)
    requires partner.Some? ==> partner.value in s.mitras
    requires WellFormed(s) && j.subscriptionId in s.subscriptions
    requires Renew(s, j, sub, pkg, partner, today).Success?
    ensures var r := Renew(s, j, sub, pkg, partner, today).value;
            && WellFormed(r)
            && s.nextKey < r.nextKey
            && forall k :: k in s.sessions ==> k in r.sessions && r.sessions[k] == s.sessions[k]
  {
    var order := CurrentOrder(s, sub).value;
    var newPkg := s.pakets[order.paketId];
    var batch :| && IsBatchFor(batch, order, newPkg, s.nextKey, j.subscriptionId, today)
                 && Renew(s, j, sub, pkg, partner, today).value == Renewed(s, j, sub, pkg, partner, order, newPkg, batch);
    RenewedKeepsWellFormed(s, j, sub, pkg, partner, order, newPkg, batch);
  }

  /** Confirmation keeps every other session and draws any new keys from `nextKey`. */
  lemma ConfirmKeepsWellFormed(s: State, id: Key, now: Moment)
    requires WellFormed(s)
    requires ConfirmPresent(s, id, now).Success?
    ensures var r := ConfirmPresent(s, id, now).value;
            && WellFormed(r)
            && r.sessions[id] == s.sessions[id].(status := Present)
            && forall k :: k in s.sessions && k != id ==> k in r.sessions && r.sessions[k] == s.sessions[k]
  {
    var j := s.sessions[id];
    var sub := SubscriptionOf(s, id);
    var pkg := s.pakets[sub.paketId];
    var credited := Credit(s, id, pkg.honorPrice);
    CreditKeepsWellFormed(s, id, pkg.honorPrice);
    if Exhausts(s, id) {
      var partner := PartnerOf(s, s.siswas[j.siswaId]);
      ConfirmExhaustingRenews(s, id, now);
      RenewKeepsWellFormed(credited, j, sub.(remainingSessions := 0), pkg, partner, now.day);
    } else {
      ConfirmNotExhaustingCredits(s, id, now);
    }
  }

  /** A confirmation that leaves sessions to go is the credit with the counter one lower. */
  lemma ConfirmNotExhaustingCredits(s: State, id: Key, now: Moment)
    requires ConfirmPresent(s, id, now).Success?
    requires !Exhausts(s, id)
    ensures var j := s.sessions[id];
            var sub := SubscriptionOf(s, id);
            var credited := Credit(s, id, s.pakets[sub.paketId].honorPrice);
            && j.tentorId in s.tentors
            && ConfirmPresent(s, id, now).value ==
                 credited.(subscriptions := credited.subscriptions[j.subscriptionId :=
                                              sub.(remainingSessions := sub.remainingSessions - 1)])
  {
  }

  /** A confirmation that exhausts the subscription is the credit followed by the renewal, on the closing cycle's package. */
  lemma ConfirmExhaustingRenews(s: State, id: Key, now: Moment)
    requires ConfirmPresent(s, id, now).Success?
    requires Exhausts(s, id)
    ensures var j := s.sessions[id];
            var sub := SubscriptionOf(s, id);
            var pkg := s.pakets[sub.paketId];
            && j.tentorId in s.tentors && j.siswaId in s.siswas
            && ConfirmPresent(s, id, now) ==
                 Renew(Credit(s, id, pkg.honorPrice), j, sub.(remainingSessions := 0), pkg,
                       PartnerOf(s, s.siswas[j.siswaId]), now.day)
  {
  }
}
