/**
 The payments ledger: a payment is recorded only after the conditional flip
 of the parcel's payment status from anything but "paid" to "paid".
 */
module Payments {
  import opened Types

  /** The number of ledger entries that reference parcel `id`. */
  function PaymentsFor(ledger: seq<Payment>, id: Id): (n: nat)
  {
    if |ledger| == 0 then 0
    else PaymentsFor(ledger[..|ledger| - 1], id) + (if ledger[|ledger| - 1].parcelId == id then 1 else 0)
  }

  lemma {:induction false} PaymentsForAppend(ledger: seq<Payment>, entry: Payment, id: Id)
    ensures PaymentsFor(ledger + [entry], id) == PaymentsFor(ledger, id) + (if entry.parcelId == id then 1 else 0)
  {
    assert (ledger + [entry])[..|ledger|] == ledger;
  }

  /** A parcel that no entry references has no payments. */
  lemma {:induction false} PaymentsForOutside(ledger: seq<Payment>, id: Id)
    requires forall k :: 0 <= k < |ledger| ==> ledger[k].parcelId != id
    ensures PaymentsFor(ledger, id) == 0
  {
    if |ledger| > 0 {
      PaymentsForOutside(ledger[..|ledger| - 1], id);
    }
  }

  /** The store's update of a payment submission: the parcel with this id, if
      any, gets the payment status "paid"; nothing else is written. */
  function SetPaid(parcels: map<Id, Parcel>, parcelId: Id): (r: map<Id, Parcel>)
    ensures r.Keys == parcels.Keys
    ensures parcelId in parcels ==> r[parcelId].paymentStatus == Some(PaymentPaid)
    ensures parcelId in parcels ==> r[parcelId] == parcels[parcelId].(paymentStatus := r[parcelId].paymentStatus)
    ensures forall p :: p in parcels && p != parcelId ==> r[p] == parcels[p]
  {
    if parcelId in parcels then parcels[parcelId := parcels[parcelId].(paymentStatus := Some(PaymentPaid))] else parcels
  }

  /** The update's modified count is non-zero: the parcel exists and is not
      already paid, which is exactly when the update changes the collection. */
  predicate PaymentChanges(parcels: map<Id, Parcel>, parcelId: Id)
    ensures PaymentChanges(parcels, parcelId) <==> SetPaid(parcels, parcelId) != parcels
  {
    parcelId in parcels && parcels[parcelId].paymentStatus != Some(PaymentPaid)
  }

  /** Payment submission. The parcel's payment status is set to "paid"; when
      that modified nothing (no such parcel, or already paid) the handler
      stops; otherwise exactly one ledger entry with the request's details is
      appended. */
  function RecordPayment(s: State, req: PaymentRequest): (r: Transition)
    ensures r.outcome == NotFoundOrAlreadyPaid <==> !PaymentChanges(s.parcels, req.parcelId)
    ensures r.outcome == NotFoundOrAlreadyPaid ==> r.state == s
    ensures r.outcome != NotFoundOrAlreadyPaid ==>
      && r.outcome == PaymentRecorded(|s.payments|)
      && r.state.parcels.Keys == s.parcels.Keys
      && r.state.parcels[req.parcelId] == s.parcels[req.parcelId].(paymentStatus := Some(PaymentPaid))
      && (forall p :: p in s.parcels && p != req.parcelId ==> r.state.parcels[p] == s.parcels[p])
      && |r.state.payments| == |s.payments| + 1
      && r.state.payments[..|s.payments|] == s.payments
      && r.state.payments[|s.payments|] == Payment(req.parcelId, req.email, req.amount, req.paymentMethod, req.transactionId)
    ensures forall id ::
      PaymentsFor(r.state.payments, id) ==
      PaymentsFor(s.payments, id) + (if r.outcome.PaymentRecorded? && id == req.parcelId then 1 else 0)
    ensures r.state.users == s.users && r.state.riders == s.riders && r.state.nextId == s.nextId
  {
    if !PaymentChanges(s.parcels, req.parcelId) then Transition(s, NotFoundOrAlreadyPaid)
    else
      var entry := Payment(req.parcelId, req.email, req.amount, req.paymentMethod, req.transactionId);
      var parcels' := SetPaid(s.parcels, req.parcelId);
      assert (s.payments + [entry])[..|s.payments|] == s.payments;
      assert forall id :: PaymentsFor(s.payments + [entry], id) == PaymentsFor(s.payments, id) + (if entry.parcelId == id then 1 else 0) by {
        forall id ensures PaymentsFor(s.payments + [entry], id) == PaymentsFor(s.payments, id) + (if entry.parcelId == id then 1 else 0) {
          PaymentsForAppend(s.payments, entry, id);
        }
      }
      Transition(s.(parcels := parcels', payments := s.payments + [entry]), PaymentRecorded(|s.payments|))
  }

  /** Paying the same parcel twice records it once: the second submission
      finds the parcel paid and appends nothing. */
  lemma PayTwiceRecordsOnce(s: State, first: PaymentRequest, second: PaymentRequest)
    requires first.parcelId == second.parcelId
    ensures var t := RecordPayment(s, first);
      var u := RecordPayment(t.state, second);
      && u.outcome == NotFoundOrAlreadyPaid
      && u.state == t.state
      && PaymentsFor(u.state.payments, first.parcelId) ==
         PaymentsFor(s.payments, first.parcelId) + (if PaymentChanges(s.parcels, first.parcelId) then 1 else 0)
  {
  }

  /** A ledger entry is appended only by a fresh flip: the parcel existed, was
      not paid before, and is paid afterwards. */
  lemma PaymentOnlyAfterFreshFlip(s: State, req: PaymentRequest)
    requires |RecordPayment(s, req).state.payments| > |s.payments|
    ensures req.parcelId in s.parcels
    ensures s.parcels[req.parcelId].paymentStatus != Some(PaymentPaid)
    ensures RecordPayment(s, req).state.parcels[req.parcelId].paymentStatus == Some(PaymentPaid)
  {
  }
}
