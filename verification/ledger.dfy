/**
 * Conservation of money across a billing cycle.  Each confirmed session
 * credits its tutor one `honorPrice`; the renewal turns those credits into
 * honoraria, and paying an honorarium debits exactly what was credited.
 * The partner's revenue share is credited and debited by the same amount.
 */
module Ledger {
  import opened Wrappers
  import opened Dates
  import opened Entities
  import opened Schedule
  import opened Attendance
  import opened Payments

  /** Sessions of invoice `inv` confirmed `Present`. */
  function PresentIn(s: State, inv: Key): set<Key> {
    set k | k in s.sessions && s.sessions[k].invoiceId == inv && s.sessions[k].status == Present
  }

  /** Sessions of invoice `inv` confirmed `Present` and taught by a tutor in `ts`. */
  function PresentWith(s: State, inv: Key, ts: set<Id>): set<Key> {
    set k | k in s.sessions && s.sessions[k].invoiceId == inv && s.sessions[k].status == Present &&
            s.sessions[k].tentorId in ts
  }

  /**
   * What tutor `t` holds beyond the honorarium owed for invoice `inv`: the
   * wallet less `honorPrice` for each of the tutor's confirmed sessions.
   */
  function Balance(s: State, inv: Key, t: Id, honorPrice: int): int
    requires t in s.tentors
  {
    s.tentors[t].wallet - honorPrice * |TaughtBy(s, inv, t)|
  }

  // ---------------------------------------------------------------------------
  // Confirmation keeps every balance
  // ---------------------------------------------------------------------------

  lemma TaughtByAfterCredit(s: State, id: Key, honorPrice: int, inv: Key, u: Id)
    requires id in s.sessions && s.sessions[id].tentorId in s.tentors
    requires s.sessions[id].status != Present
    ensures var c := Credit(s, id, honorPrice);
            var j := s.sessions[id];
            TaughtBy(c, inv, u) ==
              if u == j.tentorId && inv == j.invoiceId then TaughtBy(s, inv, u) + {id} else TaughtBy(s, inv, u)
  {
    var c := Credit(s, id, honorPrice);
    var j := s.sessions[id];
    var expected := if u == j.tentorId && inv == j.invoiceId then TaughtBy(s, inv, u) + {id} else TaughtBy(s, inv, u);
    forall k | k in TaughtBy(c, inv, u) ensures k in expected {
      if k != id { assert k in TaughtBy(s, inv, u); }
    }
    forall k | k in expected ensures k in TaughtBy(c, inv, u) {
      if k != id { assert k in TaughtBy(s, inv, u); }
    }
  }

  /** A renewal adds only `Absent` sessions under fresh keys, so no tutor's confirmed sessions change. */
  lemma TaughtByAfterRenewed(s: State, j: Session, sub: Subscription, pkg: Package, partner: Option<Id>,
                             order: Order, newPkg: Package, batch: seq<Session>, inv: Key, u: Id)
    requires sub.currentOrderId.Some?
    requires partner.Some? ==> partner.value in s.mitras
    requires WellFormed(s) && j.subscriptionId in s.subscriptions
    requires forall i :: 0 <= i < |batch| ==> batch[i].status == Absent
    ensures var r := Renewed(s, j, sub, pkg, partner, order, newPkg, batch);
            TaughtBy(r, inv, u) == TaughtBy(s, inv, u)
  {
    var r := Renewed(s, j, sub, pkg, partner, order, newPkg, batch);
    RenewedKeepsWellFormed(s, j, sub, pkg, partner, order, newPkg, batch);
    assert forall k :: k in TaughtBy(r, inv, u) ==> k in TaughtBy(s, inv, u);
  }

  lemma TaughtByAfterRenew(s: State, j: Session, sub: Subscription, pkg: Package, partner: Option<Id>,
                           today: int, inv: Key, u: Id)
    requires partner.Some? ==> partner.value in s.mitras
    requires WellFormed(s) && j.subscriptionId in s.subscriptions
    requires Renew(s, j, sub, pkg, partner, today).Success?
    ensures var r := Renew(s, j, sub, pkg, partner, today).value;
            && TaughtBy(r, inv, u) == TaughtBy(s, inv, u)
            && r.tentors == s.tentors
  {
    var r := Renew(s, j, sub, pkg, partner, today).value;
    var order := CurrentOrder(s, sub).value;
    var newPkg := s.pakets[order.paketId];
    var batch :| && IsBatchFor(batch, order, newPkg, s.nextKey, j.subscriptionId, today)
                 && r == Renewed(s, j, sub, pkg, partner, order, newPkg, batch);
    TaughtByAfterRenewed(s, j, sub, pkg, partner, order, newPkg, batch, inv, u);
  }

  /** The credit raises the session's tutor's wallet by one `honorPrice` and adds the session to what the tutor taught. */
  lemma CreditKeepsBalance(s: State, id: Key, honorPrice: int, u: Id)
    requires id in s.sessions && s.sessions[id].tentorId in s.tentors
    requires s.sessions[id].status != Present
    requires u in s.tentors
    ensures var c := Credit(s, id, honorPrice);
            var inv := s.sessions[id].invoiceId;
            u in c.tentors && Balance(c, inv, u, honorPrice) == Balance(s, inv, u, honorPrice)
  {
    var c := Credit(s, id, honorPrice);
    var j := s.sessions[id];
    TaughtByAfterCredit(s, id, honorPrice, j.invoiceId, u);
    if u == j.tentorId {
      assert id !in TaughtBy(s, j.invoiceId, u);
      var n := |TaughtBy(s, j.invoiceId, u)|;
      assert |TaughtBy(c, j.invoiceId, u)| == n + 1;
      assert honorPrice * (n + 1) == honorPrice * n + honorPrice;
    }
  }

  /** After a confirmation the wallets and the confirmed sessions are those of the credit alone. */
  lemma ConfirmIsCredit(s: State, id: Key, now: Moment, inv: Key, u: Id)
    requires WellFormed(s)
    requires ConfirmPresent(s, id, now).Success?
    ensures var r := ConfirmPresent(s, id, now).value;
            var c := Credit(s, id, s.pakets[SubscriptionOf(s, id).paketId].honorPrice);
            && r.tentors == c.tentors
            && TaughtBy(r, inv, u) == TaughtBy(c, inv, u)
  {
    var j := s.sessions[id];
    var sub := SubscriptionOf(s, id);
    var pkg := s.pakets[sub.paketId];
    var c := Credit(s, id, pkg.honorPrice);
    if Exhausts(s, id) {
      ConfirmExhaustingRenews(s, id, now);
      assert WellFormed(c);
      TaughtByAfterRenew(c, j, sub.(remainingSessions := 0), pkg, PartnerOf(s, s.siswas[j.siswaId]), now.day, inv, u);
    }
  }

  /**
   * Confirming a session keeps every tutor's balance on the session's
   * invoice: the credit to the session's tutor is matched by one more
   * confirmed session.  The balance is taken at the honorarium rate of the
   * session's package.
   */
  lemma ConfirmKeepsBalance(s: State, id: Key, now: Moment, u: Id)
    requires WellFormed(s)
    requires ConfirmPresent(s, id, now).Success?
    requires u in s.tentors
    ensures var r := ConfirmPresent(s, id, now).value;
            var inv := s.sessions[id].invoiceId;
            var h := s.pakets[SubscriptionOf(s, id).paketId].honorPrice;
            && u in r.tentors
            && Balance(r, inv, u, h) == Balance(s, inv, u, h)
  {
    var inv := s.sessions[id].invoiceId;
    var h := s.pakets[SubscriptionOf(s, id).paketId].honorPrice;
    ConfirmIsCredit(s, id, now, inv, u);
    CreditKeepsBalance(s, id, h, u);
  }

  // ---------------------------------------------------------------------------
  // Honoraria add up to the confirmed sessions
  // ---------------------------------------------------------------------------

  /** The totals of the honoraria `hs` holds in batch `batch` for the tutors `ts`. */
  ghost function SumTotals(hs: map<HonorKey, Honor>, batch: Key, ts: set<Id>): int
    requires forall t :: t in ts ==> HonorKey(batch, t) in hs
    decreases |ts|
  {
    if ts == {} then 0
    else
      var t :| t in ts;
      hs[HonorKey(batch, t)].total + SumTotals(hs, batch, ts - {t})
  }

  lemma PresentWithSplits(s: State, inv: Key, ts: set<Id>, t: Id)
    requires t in ts
    ensures PresentWith(s, inv, ts) == TaughtBy(s, inv, t) + PresentWith(s, inv, ts - {t})
    ensures TaughtBy(s, inv, t) * PresentWith(s, inv, ts - {t}) == {}
  {
  }

  /** Honoraria worth `honorPrice` per confirmed session of their tutor add up to the sessions of all the tutors. */
  lemma {:induction false} PerSessionTotalsSum(s: State, inv: Key, honorPrice: int, hs: map<HonorKey, Honor>,
                                               batch: Key, ts: set<Id>)
    requires forall t :: t in ts ==> HonorKey(batch, t) in hs
    requires forall t :: t in ts ==> hs[HonorKey(batch, t)].total == |TaughtBy(s, inv, t)| * honorPrice
    ensures SumTotals(hs, batch, ts) == |PresentWith(s, inv, ts)| * honorPrice
    decreases |ts|
  {
    if ts == {} {
      assert PresentWith(s, inv, ts) == {};
    } else {
      var t :| t in ts && SumTotals(hs, batch, ts) == hs[HonorKey(batch, t)].total + SumTotals(hs, batch, ts - {t});
      PerSessionTotalsSum(s, inv, honorPrice, hs, batch, ts - {t});
      PresentWithSplits(s, inv, ts, t);
      var a := |TaughtBy(s, inv, t)|;
      var b := |PresentWith(s, inv, ts - {t})|;
      assert |PresentWith(s, inv, ts)| == a + b;
      assert (a + b) * honorPrice == a * honorPrice + b * honorPrice;
    }
  }

  /**
   * The honoraria a renewal creates, one per tutor with a confirmed session
   * under the closing invoice, add up to the number of confirmed sessions
   * times `honorPrice`.
   */
  lemma HonorTotalsMatchPresentSessions(s: State, inv: Key, siswaId: Id, honorPrice: int, batch: Key)
    ensures var hs := RenewalHonors(s, inv, siswaId, honorPrice, batch);
            && (forall t :: t in TutorsOf(s, inv) ==> HonorKey(batch, t) in hs)
            && SumTotals(hs, batch, TutorsOf(s, inv)) == |PresentIn(s, inv)| * honorPrice
  {
    var hs := RenewalHonors(s, inv, siswaId, honorPrice, batch);
    PerSessionTotalsSum(s, inv, honorPrice, hs, batch, TutorsOf(s, inv));
    forall k | k in PresentIn(s, inv) ensures k in PresentWith(s, inv, TutorsOf(s, inv)) {
      assert s.sessions[k].tentorId in TutorsOf(s, inv);
    }
    assert PresentWith(s, inv, TutorsOf(s, inv)) == PresentIn(s, inv);
  }

  // ---------------------------------------------------------------------------
  // Paying out settles the cycle
  // ---------------------------------------------------------------------------

  /** The honorarium a renewal creates for tutor `t` is worth the tutor's confirmed sessions of the closing invoice. */
  lemma RenewedHonorTotal(s: State, j: Session, sub: Subscription, pkg: Package, partner: Option<Id>,
                          order: Order, newPkg: Package, batch: seq<Session>, t: Id)
    requires sub.currentOrderId.Some?
    requires partner.Some? ==> partner.value in s.mitras
    requires WellFormed(s)
    requires HonorKey(s.nextKey, t) in Renewed(s, j, sub, pkg, partner, order, newPkg, batch).honors
    ensures var h := Renewed(s, j, sub, pkg, partner, order, newPkg, batch).honors[HonorKey(s.nextKey, t)];
            && h.tentorId == t
            && h.total == |TaughtBy(s, j.invoiceId, t)| * pkg.honorPrice
  {
    var key := HonorKey(s.nextKey, t);
    assert key !in s.honors;
    var created := RenewalHonors(s, j.invoiceId, j.siswaId, pkg.honorPrice, s.nextKey);
    assert key in created;
  }

  /** The confirmation that exhausts a subscription is the credit followed by `Renewed` on some batch of new sessions. */
  lemma ConfirmExhaustingIsRenewed(s: State, id: Key, now: Moment)
    requires ConfirmPresent(s, id, now).Success? && Exhausts(s, id)
    ensures var j := s.sessions[id];
            var sub := SubscriptionOf(s, id).(remainingSessions := 0);
            var pkg := s.pakets[SubscriptionOf(s, id).paketId];
            var c := Credit(s, id, pkg.honorPrice);
            var partner := PartnerOf(s, s.siswas[j.siswaId]);
            var order := CurrentOrder(c, sub).value;
            && j.tentorId in s.tentors && j.siswaId in s.siswas
            && sub.currentOrderId.Some? && order.paketId in c.pakets
            && (partner.Some? ==> partner.value in c.mitras)
            && exists batch ::
                 && IsBatchFor(batch, order, c.pakets[order.paketId], c.nextKey, j.subscriptionId, now.day)
                 && ConfirmPresent(s, id, now).value == Renewed(c, j, sub, pkg, partner, order, c.pakets[order.paketId], batch)
  {
    ConfirmExhaustingRenews(s, id, now);
  }

  lemma RenewalHonorTotal(s: State, id: Key, now: Moment, t: Id)
    requires WellFormed(s)
    requires ConfirmPresent(s, id, now).Success? && Exhausts(s, id)
    requires HonorKey(s.nextKey, t) in ConfirmPresent(s, id, now).value.honors
    ensures var r := ConfirmPresent(s, id, now).value;
            var inv := s.sessions[id].invoiceId;
            var h := s.pakets[SubscriptionOf(s, id).paketId].honorPrice;
            && r.honors[HonorKey(s.nextKey, t)].tentorId == t
            && r.honors[HonorKey(s.nextKey, t)].total == |TaughtBy(r, inv, t)| * h
  {
    var r := ConfirmPresent(s, id, now).value;
    var j := s.sessions[id];
    var sub := SubscriptionOf(s, id).(remainingSessions := 0);
    var pkg := s.pakets[SubscriptionOf(s, id).paketId];
    var c := Credit(s, id, pkg.honorPrice);
    var partner := PartnerOf(s, s.siswas[j.siswaId]);
    ConfirmExhaustingIsRenewed(s, id, now);
    var order := CurrentOrder(c, sub).value;
    var newPkg := c.pakets[order.paketId];
    var batch :| && IsBatchFor(batch, order, newPkg, c.nextKey, j.subscriptionId, now.day)
                 && r == Renewed(c, j, sub, pkg, partner, order, newPkg, batch);
    CreditKeepsWellFormed(s, id, pkg.honorPrice);
    RenewedHonorTotal(c, j, sub, pkg, partner, order, newPkg, batch, t);
    TaughtByAfterRenewed(c, j, sub, pkg, partner, order, newPkg, batch, j.invoiceId, t);
  }

  /**
   * Paying the honorarium a renewal created for tutor `t` leaves the tutor's
   * wallet at the balance before the confirmation: everything the cycle's
   * confirmations credited is paid out again, no more and no less.
   */
  lemma HonorPaymentSettlesCycle(s: State, id: Key, now: Moment, t: Id, proof: Option<string>)
    requires WellFormed(s)
    requires ConfirmPresent(s, id, now).Success? && Exhausts(s, id)
    requires t in s.tentors
    requires HonorKey(s.nextKey, t) in ConfirmPresent(s, id, now).value.honors
    ensures var r := ConfirmPresent(s, id, now).value;
            var inv := s.sessions[id].invoiceId;
            var h := s.pakets[SubscriptionOf(s, id).paketId].honorPrice;
            && PayHonor(r, HonorKey(s.nextKey, t), proof).Success?
            && PayHonor(r, HonorKey(s.nextKey, t), proof).value.tentors[t].wallet == Balance(s, inv, t, h)
  {
    var r := ConfirmPresent(s, id, now).value;
    var inv := s.sessions[id].invoiceId;
    var h := s.pakets[SubscriptionOf(s, id).paketId].honorPrice;
    var key := HonorKey(s.nextKey, t);
    ConfirmKeepsBalance(s, id, now, t);
    RenewalHonorTotal(s, id, now, t);
    var n := |TaughtBy(r, inv, t)|;
    assert r.honors[key].total == n * h;
    assert n * h == h * n;
    var paid := PayHonor(r, key, proof);
    assert paid.Success?;
    assert paid.value.tentors[t].wallet == r.tentors[t].wallet - n * h;
  }

  /**
   * Paying the revenue share a renewal created returns the partner's wallet
   * to its value before the confirmation: the renewal's credit and the
   * share's total are the same amount.
   */
  lemma ProsharePaymentRestoresPartner(s: State, id: Key, now: Moment, proof: Option<string>)
    requires ConfirmPresent(s, id, now).Success? && Exhausts(s, id)
    requires PartnerOf(s, s.siswas[s.sessions[id].siswaId]).Some?
    ensures var r := ConfirmPresent(s, id, now).value;
            var m := PartnerOf(s, s.siswas[s.sessions[id].siswaId]).value;
            && PayProshare(r, s.nextKey, proof).Success?
            && PayProshare(r, s.nextKey, proof).value.mitras[m].wallet == s.mitras[m].wallet
  {
    var r := ConfirmPresent(s, id, now).value;
    var j := s.sessions[id];
    var sub := SubscriptionOf(s, id).(remainingSessions := 0);
    var pkg := s.pakets[SubscriptionOf(s, id).paketId];
    var c := Credit(s, id, pkg.honorPrice);
    var partner := PartnerOf(s, s.siswas[j.siswaId]);
    ConfirmExhaustingIsRenewed(s, id, now);
    var order := CurrentOrder(c, sub).value;
    var newPkg := c.pakets[order.paketId];
    var batch :| && IsBatchFor(batch, order, newPkg, c.nextKey, j.subscriptionId, now.day)
                 && r == Renewed(c, j, sub, pkg, partner, order, newPkg, batch);
    assert c.mitras == s.mitras && c.nextKey == s.nextKey;
  }
}
