/**
 The mutating handlers as one state machine. Each request is one atomic,
 sequential transition; a run applies requests in order. The invariant
 collects what the handlers keep true together, and the lemmas show that
 every request preserves it and that every rejection leaves the state alone.
 */
module Workflow {
  import opened Types
  import opened Roles
  import opened Riders
  import opened Parcels
  import opened Payments

  datatype Request =
    | RegisterReq(body: User)
    | ApplyReq(app: Application)
    | ReviewReq(caller: Email, riderId: Id, action: Option<string>, email: Email)
    | AssignReq(caller: Email, parcelId: Id, riderId: Id)
    | PayReq(payment: PaymentRequest)

  /** Every user document is stored under its own email. */
  ghost predicate UsersKeyedByEmail(users: map<Email, User>) {
    forall e :: e in users ==> users[e].email == e
  }

  /** Rider ids come from the counter, so the next one is unused. */
  ghost predicate RiderIdsFresh(s: State) {
    forall id :: id in s.riders ==> id < s.nextId
  }

  /** No two rider documents share an email. */
  ghost predicate RiderEmailsUnique(riders: map<Id, Rider>) {
    forall i, j :: i in riders && j in riders && i != j ==> riders[i].email != riders[j].email
  }

  /** Every ledger entry references an existing, paid parcel. */
  ghost predicate PaymentsBacked(s: State) {
    forall k :: 0 <= k < |s.payments| ==>
      s.payments[k].parcelId in s.parcels && s.parcels[s.payments[k].parcelId].paymentStatus == Some(PaymentPaid)
  }

  /** No parcel has two ledger entries. */
  ghost predicate AtMostOnePaymentPerParcel(s: State) {
    forall id :: PaymentsFor(s.payments, id) <= 1
  }

  /** A paid parcel has exactly one ledger entry. */
  ghost predicate PaidParcelsHaveEntry(s: State) {
    forall p :: p in s.parcels && s.parcels[p].paymentStatus == Some(PaymentPaid) ==> PaymentsFor(s.payments, p) == 1
  }

  /** Some rider document with this email is marked busy. */
  ghost predicate BusyRiderWithEmail(riders: map<Id, Rider>, email: Email) {
    exists id :: id in riders && riders[id].email == email && riders[id].workStatus == Some(WorkBusy)
  }

  /** A parcel in the "Assigned Rider" status names a rider, and that rider
      is busy. */
  ghost predicate AssignedParcelsHaveBusyRiders(s: State) {
    forall p :: p in s.parcels && s.parcels[p].status == Some(ParcelAssigned) ==>
      s.parcels[p].assignedRider.Some? && BusyRiderWithEmail(s.riders, s.parcels[p].assignedRider.value)
  }

  ghost predicate Inv(s: State) {
    && UsersKeyedByEmail(s.users)
    && RiderIdsFresh(s)
    && RiderEmailsUnique(s.riders)
    && PaymentsBacked(s)
    && AtMostOnePaymentPerParcel(s)
    && PaidParcelsHaveEntry(s)
    && AssignedParcelsHaveBusyRiders(s)
  }

  /** One request against the current state. Applications need fresh rider
      ids, which the counter provides under the invariant. */
  function Step(s: State, req: Request): (r: Transition)
    requires RiderIdsFresh(s)
    ensures r.outcome.IsRejection() ==> r.state == s
    ensures r.outcome == Forbidden ==> req.ReviewReq? || req.AssignReq?
    ensures req.ReviewReq? ==> (r.outcome == Forbidden <==> !IsAdmin(s.users, req.caller))
    ensures req.AssignReq? ==> (r.outcome == Forbidden <==> !IsAdmin(s.users, req.caller))
    ensures |r.state.payments| > |s.payments| ==>
      && req.PayReq?
      && PaymentChanges(s.parcels, req.payment.parcelId)
      && r.state.payments == s.payments + [r.state.payments[|s.payments|]]
      && r.state.payments[|s.payments|].parcelId == req.payment.parcelId
    ensures s.payments <= r.state.payments && |r.state.payments| <= |s.payments| + 1
    ensures RiderIdsFresh(r.state)
  {
    match req
    case RegisterReq(body) => RegisterUser(s, body)
    case ApplyReq(app) => Apply(s, app)
    case ReviewReq(caller, id, action, email) => Review(s, caller, id, action, email)
    case AssignReq(caller, parcelId, riderId) => AssignRider(s, caller, parcelId, riderId)
    case PayReq(payment) => RecordPayment(s, payment)
  }

  /** The state after applying `reqs` in order. */
  function Run(s: State, reqs: seq<Request>): (r: State)
    requires RiderIdsFresh(s)
    decreases |reqs|
  {
    if |reqs| == 0 then s
    else
      var t := Step(s, reqs[0]);
      Run(t.state, reqs[1..])
  }

  lemma RegisterPreservesInv(s: State, body: User)
    requires Inv(s)
    ensures Inv(RegisterUser(s, body).state)
  {
  }

  lemma ApplyPreservesInv(s: State, app: Application)
    requires Inv(s)
    ensures Inv(Apply(s, app).state)
  {
    var t := Apply(s, app);
    if t.outcome != AlreadyApplied {
      forall i, j | i in t.state.riders && j in t.state.riders && i != j
        ensures t.state.riders[i].email != t.state.riders[j].email
      {
        if i == s.nextId {
          assert t.state.riders[j] == s.riders[j];
        } else if j == s.nextId {
          assert t.state.riders[i] == s.riders[i];
        }
      }
      forall p | p in t.state.parcels && t.state.parcels[p].status == Some(ParcelAssigned)
        ensures t.state.parcels[p].assignedRider.Some? && BusyRiderWithEmail(t.state.riders, t.state.parcels[p].assignedRider.value)
      {
        var w :| w in s.riders && s.riders[w].email == s.parcels[p].assignedRider.value && s.riders[w].workStatus == Some(WorkBusy);
        assert t.state.riders[w] == s.riders[w];
      }
    }
  }

  lemma ReviewPreservesInv(s: State, caller: Email, id: Id, action: Option<string>, email: Email)
    requires Inv(s)
    ensures Inv(Review(s, caller, id, action, email).state)
  {
    var t := Review(s, caller, id, action, email).state;
    forall p | p in t.parcels && t.parcels[p].status == Some(ParcelAssigned)
      ensures t.parcels[p].assignedRider.Some? && BusyRiderWithEmail(t.riders, t.parcels[p].assignedRider.value)
    {
      var w :| w in s.riders && s.riders[w].email == s.parcels[p].assignedRider.value && s.riders[w].workStatus == Some(WorkBusy);
      assert t.riders[w].email == s.riders[w].email && t.riders[w].workStatus == s.riders[w].workStatus;
    }
    forall i, j | i in t.riders && j in t.riders && i != j
      ensures t.riders[i].email != t.riders[j].email
    {
      assert t.riders[i].email == s.riders[i].email && t.riders[j].email == s.riders[j].email;
    }
    forall e | e in t.users
      ensures t.users[e].email == e
    {
      assert t.users[e].email == s.users[e].email;
    }
  }

  lemma AssignPreservesInv(s: State, caller: Email, parcelId: Id, riderId: Id)
    requires Inv(s)
    ensures Inv(AssignRider(s, caller, parcelId, riderId).state)
  {
    var t := AssignRider(s, caller, parcelId, riderId);
    if t.outcome == RiderAssigned {
      var u := t.state;
      forall i, j | i in u.riders && j in u.riders && i != j
        ensures u.riders[i].email != u.riders[j].email
      {
        assert u.riders[i].email == s.riders[i].email && u.riders[j].email == s.riders[j].email;
      }
      forall k | 0 <= k < |u.payments|
        ensures u.payments[k].parcelId in u.parcels && u.parcels[u.payments[k].parcelId].paymentStatus == Some(PaymentPaid)
      {
        var p := s.payments[k].parcelId;
        assert u.parcels[p].paymentStatus == s.parcels[p].paymentStatus;
      }
      forall p | p in u.parcels && u.parcels[p].paymentStatus == Some(PaymentPaid)
        ensures PaymentsFor(u.payments, p) == 1
      {
        assert u.parcels[p].paymentStatus == s.parcels[p].paymentStatus;
      }
      forall p | p in u.parcels && u.parcels[p].status == Some(ParcelAssigned)
        ensures u.parcels[p].assignedRider.Some? && BusyRiderWithEmail(u.riders, u.parcels[p].assignedRider.value)
      {
        if p == parcelId {
          assert u.riders[riderId].email == u.parcels[p].assignedRider.value;
        } else {
          var w :| w in s.riders && s.riders[w].email == s.parcels[p].assignedRider.value && s.riders[w].workStatus == Some(WorkBusy);
          assert u.riders[w].email == s.riders[w].email && u.riders[w].workStatus == Some(WorkBusy);
        }
      }
    }
  }

  lemma PayPreservesInv(s: State, req: PaymentRequest)
    requires Inv(s)
    ensures Inv(RecordPayment(s, req).state)
  {
    var t := RecordPayment(s, req);
    if t.outcome.PaymentRecorded? {
      var u := t.state;
      forall k | 0 <= k < |s.payments|
        ensures s.payments[k].parcelId != req.parcelId
      {
      }
      PaymentsForOutside(s.payments, req.parcelId);
      forall k | 0 <= k < |u.payments|
        ensures u.payments[k].parcelId in u.parcels && u.parcels[u.payments[k].parcelId].paymentStatus == Some(PaymentPaid)
      {
        if k < |s.payments| {
          assert u.payments[k] == s.payments[k];
        }
      }
      forall p | p in u.parcels && u.parcels[p].paymentStatus == Some(PaymentPaid)
        ensures PaymentsFor(u.payments, p) == 1
      {
        if p != req.parcelId {
          assert u.parcels[p] == s.parcels[p];
        }
      }
      forall p | p in u.parcels && u.parcels[p].status == Some(ParcelAssigned)
        ensures u.parcels[p].assignedRider.Some? && BusyRiderWithEmail(u.riders, u.parcels[p].assignedRider.value)
      {
        assert u.parcels[p].status == s.parcels[p].status && u.parcels[p].assignedRider == s.parcels[p].assignedRider;
      }
    }
  }

  /** Every run of requests keeps the invariant. */
  lemma {:induction false} RunPreservesInv(s: State, reqs: seq<Request>)
    requires Inv(s)
    ensures Inv(Run(s, reqs))
    decreases |reqs|
  {
    if |reqs| > 0 {
      match reqs[0] {
        case RegisterReq(body) => RegisterPreservesInv(s, body);
        case ApplyReq(app) => ApplyPreservesInv(s, app);
        case ReviewReq(caller, id, action, email) => ReviewPreservesInv(s, caller, id, action, email);
        case AssignReq(caller, parcelId, riderId) => AssignPreservesInv(s, caller, parcelId, riderId);
        case PayReq(payment) => PayPreservesInv(s, payment);
      }
      RunPreservesInv(Step(s, reqs[0]).state, reqs[1..]);
    }
  }

  /** The ledger only grows along a run, by at most one entry per request. */
  lemma {:induction false} RunExtendsLedger(s: State, reqs: seq<Request>)
    requires RiderIdsFresh(s)
    ensures s.payments <= Run(s, reqs).payments
    ensures |Run(s, reqs).payments| <= |s.payments| + |reqs|
    decreases |reqs|
  {
    if |reqs| > 0 {
      RunExtendsLedger(Step(s, reqs[0]).state, reqs[1..]);
    }
  }

  /** A caller without the admin role changes nothing by any admin request. */
  lemma NonAdminChangesNothing(s: State, req: Request)
    requires RiderIdsFresh(s)
    requires req.ReviewReq? || req.AssignReq?
    requires !IsAdmin(s.users, req.caller)
    ensures Step(s, req) == Transition(s, Forbidden)
  {
  }

  /** The end-to-end scenario: an applicant applies, an admin approves and
      assigns them to a parcel, and a payment of 500 is submitted for it. */
  lemma DeliveryScenario(parcel: Parcel)
    requires parcel.paymentStatus == None
    ensures
      var admin := "admin@x.com";
      var applicant := "a@x.com";
      var s0 := State(map[admin := User(admin, Some(RoleAdmin)), applicant := User(applicant, None)],
                      map[], map[123 := parcel], [], 0);
      var s1 := Apply(s0, Application(applicant, None, None));
      var s2 := Review(s1.state, admin, 0, Some(ActionApprove), applicant);
      var s3 := AssignRider(s2.state, admin, 123, 0);
      var s4 := RecordPayment(s3.state, PaymentRequest(123, "owner@x.com", 500, "card", "tx1"));
      && s1.outcome == RiderInserted(0) && s1.state.riders[0].status == StatusPending
      && s2.outcome == StatusUpdated(StatusApproved) && s2.state.riders[0].status == StatusApproved
      && GetRole(s2.state.users, applicant) == RoleIs(RoleRider)
      && s3.outcome == RiderAssigned
      && s3.state.parcels[123].status == Some(ParcelAssigned)
      && s3.state.parcels[123].assignedRider == Some(applicant)
      && s3.state.riders[0].workStatus == Some(WorkBusy)
      && s4.outcome == PaymentRecorded(0)
      && s4.state.parcels[123].paymentStatus == Some(PaymentPaid)
      && s4.state.payments == [Payment(123, "owner@x.com", 500, "card", "tx1")]
  {
    var admin := "admin@x.com";
    var applicant := "a@x.com";
    var s0 := State(map[admin := User(admin, Some(RoleAdmin)), applicant := User(applicant, None)],
                    map[], map[123 := parcel], [], 0);
    assert !HasRiderWithEmail(s0.riders, applicant);
    assert admin != applicant;
  }
}
