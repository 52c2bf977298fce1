/**
 * Money movements: invoice creation and payment, the registration fee on an
 * invoice, and the payouts of honoraria and revenue shares, which debit the
 * wallets the attendance confirmations credited.
 */
module Payments {
  import opened Wrappers
  import opened Dates
  import opened Entities

  /** The one-time registration fee in rupiah, charged while a student has not yet paid an invoice. */
  const RegistrationFeeAmount: int := 95000

  function RegistrationFee(student: Student): (fee: int)
    ensures fee == (if student.isFirstPurchase then RegistrationFeeAmount else 0)
    ensures fee >= 0
  {
    if student.isFirstPurchase then RegistrationFeeAmount else 0
  }

  /** The amount an invoice shows: the package price plus the registration fee. */
  function InvoiceTotal(pkg: Package, student: Student): (total: int)
    ensures total - pkg.price == RegistrationFee(student)
    ensures student.isFirstPurchase <==> total == pkg.price + RegistrationFeeAmount
    ensures !student.isFirstPurchase <==> total == pkg.price
  {
    pkg.price + RegistrationFee(student)
  }

  /** `createInvoice`: an `Unpaid` invoice priced at its package, stored under `nextKey`. */
  function CreateInvoice(s: State, orderId: Id, subscriptionId: Key, paketId: Id): (r: Result<State, Error>)
    ensures r.Success? <==> paketId in s.pakets
    ensures r.Failure? ==> r.error == PackageNotFound
    ensures r.Success? ==>
              && r.value.invoices.Keys == s.invoices.Keys + {s.nextKey}
              && r.value.invoices[s.nextKey].orderId == orderId
              && r.value.invoices[s.nextKey].subscriptionId == subscriptionId
              && r.value.invoices[s.nextKey].paketId == paketId
              && r.value.invoices[s.nextKey].price == Some(s.pakets[paketId].price)
              && r.value.invoices[s.nextKey].paymentStatus == Unpaid
              && r.value.invoices[s.nextKey].siswaId.None?
              && r.value.invoices[s.nextKey].transferProof.None?
              && r.value.invoices[s.nextKey].paymentDate.None?
              && (forall k :: k in s.invoices && k != s.nextKey ==> r.value.invoices[k] == s.invoices[k])
              && r.value.nextKey == s.nextKey + 1
              && r.value == s.(invoices := r.value.invoices, nextKey := r.value.nextKey)
    ensures r.Success? && WellFormed(s) ==> WellFormed(r.value) && s.nextKey !in s.invoices
  {
    if paketId !in s.pakets then Failure(PackageNotFound)
    else
      var inv := Invoice(orderId, subscriptionId, paketId, None, Some(s.pakets[paketId].price), Unpaid, None, None);
      Success(s.(invoices := s.invoices[s.nextKey := inv], nextKey := s.nextKey + 1))
  }

  /**
   * An invoice `createInvoice` stores names no student, so paying it fails
   * with `StudentNotFound` until a student is recorded on it.
   */
  lemma CreatedInvoiceCannotBePaid(s: State, orderId: Id, subscriptionId: Key, paketId: Id,
                                   proof: Option<string>, now: Moment)
    requires CreateInvoice(s, orderId, subscriptionId, paketId).Success?
    ensures PayInvoice(CreateInvoice(s, orderId, subscriptionId, paketId).value, s.nextKey, proof, now)
            == Failure(StudentNotFound)
  {
  }

  /** The student an invoice bills, when it names one that exists. */
  predicate BillsKnownStudent(s: State, id: Key) {
    id in s.invoices && s.invoices[id].siswaId.Some? && s.invoices[id].siswaId.value in s.siswas
  }

  /**
   * `processInvocePayment`: the invoice becomes `Paid` with the proof and the
   * payment moment, and its student's first-purchase flag is cleared.  There
   * is no guard against paying an invoice twice.
   */
  function PayInvoice(s: State, id: Key, proof: Option<string>, now: Moment): (r: Result<State, Error>)
    ensures r.Success? <==> BillsKnownStudent(s, id)
    ensures id !in s.invoices ==> r == Failure(InvoiceNotFound)
    ensures id in s.invoices && !BillsKnownStudent(s, id) ==> r == Failure(StudentNotFound)
    ensures r.Success? ==>
              var inv := s.invoices[id];
              var sid := inv.siswaId.value;
              && r.value.invoices == s.invoices[id := inv.(paymentStatus := Paid, transferProof := proof,
                                                           paymentDate := Some(now))]
              && r.value.siswas == s.siswas[sid := s.siswas[sid].(isFirstPurchase := false)]
              && r.value == s.(invoices := r.value.invoices, siswas := r.value.siswas)
  {
    if id !in s.invoices then Failure(InvoiceNotFound)
    else
      var inv := s.invoices[id];
      if inv.siswaId.None? || inv.siswaId.value !in s.siswas then Failure(StudentNotFound)
      else
        var sid := inv.siswaId.value;
        var student := s.siswas[sid];
        // The flag is only written when it is set; writing false over false changes nothing.
        var siswas := if student.isFirstPurchase then s.siswas[sid := student.(isFirstPurchase := false)] else s.siswas;
        Success(s.(invoices := s.invoices[id := inv.(paymentStatus := Paid, transferProof := proof,
                                                     paymentDate := Some(now))],
                   siswas := siswas))
  }

  /** Payment never sets a first-purchase flag: a flag that is set afterwards was set before. */
  lemma PayInvoiceNeverSetsFirstPurchase(s: State, id: Key, proof: Option<string>, now: Moment, sid: Id)
    requires PayInvoice(s, id, proof, now).Success?
    requires sid in s.siswas
    ensures var r := PayInvoice(s, id, proof, now).value;
            && sid in r.siswas
            && (r.siswas[sid].isFirstPurchase ==> s.siswas[sid].isFirstPurchase)
            && r.siswas[sid].mitraId == s.siswas[sid].mitraId
  {
  }

  /** After a payment the student's next invoice carries no registration fee. */
  lemma PaymentDropsRegistrationFee(s: State, id: Key, proof: Option<string>, now: Moment, pkg: Package)
    requires PayInvoice(s, id, proof, now).Success?
    ensures var sid := s.invoices[id].siswaId.value;
            && InvoiceTotal(pkg, PayInvoice(s, id, proof, now).value.siswas[sid]) == pkg.price
            && InvoiceTotal(pkg, s.siswas[sid]) ==
                 pkg.price + (if s.siswas[sid].isFirstPurchase then RegistrationFeeAmount else 0)
  {
  }

  /** Paying an invoice again, with the same proof at the same moment, changes nothing further. */
  lemma PayInvoiceIdempotent(s: State, id: Key, proof: Option<string>, now: Moment)
    requires PayInvoice(s, id, proof, now).Success?
    ensures PayInvoice(PayInvoice(s, id, proof, now).value, id, proof, now) == PayInvoice(s, id, proof, now)
  {
    var r := PayInvoice(s, id, proof, now).value;
    assert r.invoices[id := r.invoices[id]] == r.invoices;
  }

  /**
   * `processHonorPayment`: the honorarium is marked paid with the proof and
   * its tutor's wallet loses its total.  A missing tutor rolls the whole
   * payment back; an honorarium already paid is paid again.
   */
  function PayHonor(s: State, key: HonorKey, proof: Option<string>): (r: Result<State, Error>)
    ensures r.Success? <==> key in s.honors && s.honors[key].tentorId in s.tentors
    ensures key !in s.honors ==> r == Failure(HonorNotFound)
    ensures key in s.honors && s.honors[key].tentorId !in s.tentors ==> r == Failure(TutorNotFound)
    ensures r.Success? ==>
              var h := s.honors[key];
              var t := h.tentorId;
              && r.value.honors == s.honors[key := h.(paymentStatus := PaidOut, transferProof := proof)]
              && r.value.tentors.Keys == s.tentors.Keys
              && r.value.tentors[t].wallet == s.tentors[t].wallet - h.total
              && r.value.tentors[t] == s.tentors[t].(wallet := r.value.tentors[t].wallet)
              && (forall u :: u in s.tentors && u != t ==> r.value.tentors[u] == s.tentors[u])
              && r.value == s.(honors := r.value.honors, tentors := r.value.tentors)
  {
    if key !in s.honors then Failure(HonorNotFound)
    else
      var h := s.honors[key];
      var paid := s.(honors := s.honors[key := h.(paymentStatus := PaidOut, transferProof := proof)]);
      if h.tentorId !in s.tentors then Failure(TutorNotFound)
      else
        var tutor := s.tentors[h.tentorId];
        Success(paid.(tentors := s.tentors[h.tentorId := tutor.(wallet := tutor.wallet - h.total)]))
  }

  /** Nothing stops a second payment of the same honorarium: the wallet is debited twice. */
  lemma PayHonorTwiceDebitsTwice(s: State, key: HonorKey, proof: Option<string>, proof2: Option<string>)
    requires PayHonor(s, key, proof).Success?
    ensures var once := PayHonor(s, key, proof).value;
            var t := s.honors[key].tentorId;
            && PayHonor(once, key, proof2).Success?
            && PayHonor(once, key, proof2).value.tentors[t].wallet == s.tentors[t].wallet - 2 * s.honors[key].total
  {
  }

  /**
   * `processProsharePayment`: the revenue share is marked paid with the proof
   * and its partner's wallet loses its total.  A missing partner rolls the
   * whole payment back; a share already paid is paid again.
   */
  function PayProshare(s: State, key: Key, proof: Option<string>): (r: Result<State, Error>)
    ensures r.Success? <==> key in s.proshares && s.proshares[key].mitraId in s.mitras
    ensures key !in s.proshares ==> r == Failure(ProshareNotFound)
    ensures key in s.proshares && s.proshares[key].mitraId !in s.mitras ==> r == Failure(PartnerNotFound)
    ensures r.Success? ==>
              var p := s.proshares[key];
              var m := p.mitraId;
              && r.value.proshares == s.proshares[key := p.(paymentStatus := PaidOut, transferProof := proof)]
              && r.value.mitras.Keys == s.mitras.Keys
              && r.value.mitras[m].wallet == s.mitras[m].wallet - p.total
              && (forall u :: u in s.mitras && u != m ==> r.value.mitras[u] == s.mitras[u])
              && r.value == s.(proshares := r.value.proshares, mitras := r.value.mitras)
  {
    if key !in s.proshares then Failure(ProshareNotFound)
    else
      var p := s.proshares[key];
      var paid := s.(proshares := s.proshares[key := p.(paymentStatus := PaidOut, transferProof := proof)]);
      if p.mitraId !in s.mitras then Failure(PartnerNotFound)
      else
        var partner := s.mitras[p.mitraId];
        Success(paid.(mitras := s.mitras[p.mitraId := partner.(wallet := partner.wallet - p.total)]))
  }

  /** Nothing stops a second payment of the same revenue share: the wallet is debited twice. */
  lemma PayProshareTwiceDebitsTwice(s: State, key: Key, proof: Option<string>, proof2: Option<string>)
    requires PayProshare(s, key, proof).Success?
    ensures var once := PayProshare(s, key, proof).value;
            var m := s.proshares[key].mitraId;
            && PayProshare(once, key, proof2).Success?
            && PayProshare(once, key, proof2).value.mitras[m].wallet == s.mitras[m].wallet - 2 * s.proshares[key].total
  {
  }
}
