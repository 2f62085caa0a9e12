/**
 The parcels collection: the admin assignment of a rider to a parcel and the
 rider's list of parcels waiting for pickup.
 */
module Parcels {
  import opened Types
  import opened Roles

  /** The parcel with its delivery status set to "Assigned Rider" and its
      assigned rider set to `riderEmail`; the payment status is kept. */
  function WithRider(p: Parcel, riderEmail: Email): (q: Parcel)
    ensures q.status == Some(ParcelAssigned) && q.assignedRider == Some(riderEmail)
    ensures q.ownerEmail == p.ownerEmail && q.paymentStatus == p.paymentStatus
  {
    p.(status := Some(ParcelAssigned), assignedRider := Some(riderEmail))
  }

  /** Assignment of a rider to a parcel. After the admin guard, a rider id
      that matches no document aborts before any write. Otherwise two
      unconditional writes follow: the parcel (if it exists) is marked as
      assigned to the rider's email, and the rider is marked busy. Neither the
      rider's application status nor its current work status is checked, and
      the rider is marked busy even when the parcel does not exist. */
  function AssignRider(s: State, caller: Email, parcelId: Id, riderId: Id): (r: Transition)
    ensures r.outcome == Forbidden <==> !IsAdmin(s.users, caller)
    ensures r.outcome == RiderNotFound <==> IsAdmin(s.users, caller) && riderId !in s.riders
    ensures r.outcome.IsRejection() ==> r.state == s
    ensures IsAdmin(s.users, caller) && riderId in s.riders ==> r.outcome == RiderAssigned
    ensures !r.outcome.IsRejection() ==>
      && r.outcome == RiderAssigned
      && riderId in s.riders
      && r.state.riders.Keys == s.riders.Keys
      && r.state.riders[riderId] == s.riders[riderId].(workStatus := Some(WorkBusy))
      && (forall i :: i in s.riders && i != riderId ==> r.state.riders[i] == s.riders[i])
      && r.state.parcels.Keys == s.parcels.Keys
      && (parcelId in s.parcels ==>
            && r.state.parcels[parcelId].status == Some(ParcelAssigned)
            && r.state.parcels[parcelId].assignedRider == Some(s.riders[riderId].email)
            && r.state.parcels[parcelId].paymentStatus == s.parcels[parcelId].paymentStatus
            && r.state.parcels[parcelId].ownerEmail == s.parcels[parcelId].ownerEmail)
      && (forall p :: p in s.parcels && p != parcelId ==> r.state.parcels[p] == s.parcels[p])
    ensures r.state.users == s.users && r.state.payments == s.payments && r.state.nextId == s.nextId
  {
    if !IsAdmin(s.users, caller) then Transition(s, Forbidden)
    else if riderId !in s.riders then Transition(s, RiderNotFound)
    else
      var rider := s.riders[riderId];
      var parcels' := if parcelId in s.parcels then s.parcels[parcelId := WithRider(s.parcels[parcelId], rider.email)] else s.parcels;
      var riders' := s.riders[riderId := rider.(workStatus := Some(WorkBusy))];
      Transition(s.(parcels := parcels', riders := riders'), RiderAssigned)
  }

  /** The parcels assigned to `email` and still waiting in the "Assigned
      Rider" status. */
  function PendingForRider(parcels: map<Id, Parcel>, email: Email): (r: map<Id, Parcel>)
    ensures forall p :: p in r <==>
      p in parcels && parcels[p].assignedRider == Some(email) && parcels[p].status == Some(ParcelAssigned)
    ensures forall p :: p in r ==> r[p] == parcels[p]
  {
    map p | p in parcels && parcels[p].assignedRider == Some(email) && parcels[p].status == Some(ParcelAssigned) :: parcels[p]
  }

  /** After a successful assignment the parcel is pending for exactly the
      assigned rider's email, and for no other. */
  lemma AssignedParcelIsPendingForRider(s: State, caller: Email, parcelId: Id, riderId: Id, other: Email)
    requires IsAdmin(s.users, caller) && riderId in s.riders && parcelId in s.parcels
    ensures var t := AssignRider(s, caller, parcelId, riderId).state;
      && parcelId in PendingForRider(t.parcels, s.riders[riderId].email)
      && (other != s.riders[riderId].email ==> parcelId !in PendingForRider(t.parcels, other))
  {
    var t := AssignRider(s, caller, parcelId, riderId).state;
    assert t.parcels[parcelId].assignedRider == Some(s.riders[riderId].email);
  }

  /** An assignment only adds parcels to the assigned rider's pending list:
      the lists of other emails lose at most the reassigned parcel. */
  lemma AssignmentOnlyMovesOneParcel(s: State, caller: Email, parcelId: Id, riderId: Id, email: Email)
    requires IsAdmin(s.users, caller) && riderId in s.riders
    ensures var t := AssignRider(s, caller, parcelId, riderId).state;
      && PendingForRider(s.parcels, email).Keys - {parcelId} == PendingForRider(t.parcels, email).Keys - {parcelId}
  {
    var t := AssignRider(s, caller, parcelId, riderId).state;
    var a := PendingForRider(s.parcels, email);
    var b := PendingForRider(t.parcels, email);
    forall p | p != parcelId
      ensures p in a <==> p in b
    {
      if p in s.parcels {
        assert t.parcels[p] == s.parcels[p];
      }
    }
  }

  /** A rider who is already busy can be assigned a second parcel: the
      source does not consult the work status. */
  lemma BusyRiderCanBeReassigned(s: State, caller: Email, parcelId: Id, riderId: Id)
    requires IsAdmin(s.users, caller) && riderId in s.riders
    requires s.riders[riderId].workStatus == Some(WorkBusy)
    ensures AssignRider(s, caller, parcelId, riderId).outcome == RiderAssigned
  {
  }

  /** A missing parcel still leaves the rider busy, with no parcel referencing it. */
  lemma MissingParcelStillMarksRiderBusy(s: State, caller: Email, parcelId: Id, riderId: Id)
    requires IsAdmin(s.users, caller) && riderId in s.riders
    requires parcelId !in s.parcels
    ensures var t := AssignRider(s, caller, parcelId, riderId);
      && t.outcome == RiderAssigned
      && t.state.parcels == s.parcels
      && t.state.riders[riderId].workStatus == Some(WorkBusy)
  {
  }
}
