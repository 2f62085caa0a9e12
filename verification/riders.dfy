/**
 The riders collection: applications, the admin review that approves or
 declines them (promoting a user to the rider role on approval), and the
 status filters the admin dashboard lists.
 */
module Riders {
  import opened Types
  import opened Roles

  /** Some rider document, whatever its status, carries this email. */
  predicate HasRiderWithEmail(riders: map<Id, Rider>, email: Email) {
    exists id :: id in riders && riders[id].email == email
  }

  /** A rider application. Any existing rider document with the same email,
      including a declined one, rejects it; otherwise the document is stored
      under a fresh id with its status defaulting to "pending". The work status
      is stored as posted. */
  function Apply(s: State, app: Application): (r: Transition)
    requires forall id :: id in s.riders ==> id < s.nextId
    ensures r.outcome == AlreadyApplied <==> HasRiderWithEmail(s.riders, app.email)
    ensures r.outcome == AlreadyApplied ==> r.state == s
    ensures r.outcome != AlreadyApplied ==>
      && r.outcome == RiderInserted(s.nextId)
      && s.nextId !in s.riders
      && r.state.riders.Keys == s.riders.Keys + {s.nextId}
      && |r.state.riders| == |s.riders| + 1
      && r.state.riders[s.nextId].email == app.email
      && r.state.riders[s.nextId].workStatus == app.workStatus
      && (forall id :: id in s.riders ==> r.state.riders[id] == s.riders[id])
    ensures r.outcome != AlreadyApplied && (app.status.None? || app.status.value == "") ==>
      r.state.riders[s.nextId].status == StatusPending
    ensures r.outcome != AlreadyApplied && app.status.Some? && app.status.value != "" ==>
      r.state.riders[s.nextId].status == app.status.value
    ensures OnlyRidersChanged(s, r.state)
    ensures forall id :: id in r.state.riders ==> id < r.state.nextId
  {
    if HasRiderWithEmail(s.riders, app.email) then Transition(s, AlreadyApplied)
    else
      var rider := Rider(app.email, OrDefault(app.status, StatusPending), app.workStatus);
      var riders' := s.riders[s.nextId := rider];
      assert s.nextId !in s.riders;
      assert riders'.Keys == s.riders.Keys + {s.nextId};
      assert |riders'| == |riders'.Keys| == |s.riders.Keys| + 1;
      Transition(s.(riders := riders', nextId := s.nextId + 1), RiderInserted(s.nextId))
  }

  /** The new rider status for a review action, or None when the action is
      neither "approve" nor "decline". */
  function ReviewStatus(action: Option<string>): (r: Option<string>)
    ensures r == Some(StatusApproved) <==> action == Some(ActionApprove)
    ensures r == Some(StatusDeclined) <==> action == Some(ActionDecline)
    ensures r.None? <==> action !in {Some(ActionApprove), Some(ActionDecline)}
  {
    if action == Some(ActionApprove) then Some(StatusApproved)
    else if action == Some(ActionDecline) then Some(StatusDeclined)
    else None
  }

  /** The admin review of an application. After the guard and the action
      check, the rider with `id` (if any) gets the new status; on approval the
      user with the email given in the request (if any) gets the role "rider".
      The two writes are independent: neither looks at the other's result. */
  function Review(s: State, caller: Email, id: Id, action: Option<string>, email: Email): (r: Transition)
    ensures r.outcome == Forbidden <==> !IsAdmin(s.users, caller)
    ensures r.outcome == InvalidAction <==> IsAdmin(s.users, caller) && ReviewStatus(action).None?
    ensures r.outcome.IsRejection() ==> r.state == s
    ensures !r.outcome.IsRejection() ==> r.outcome == StatusUpdated(ReviewStatus(action).value)
    ensures IsAdmin(s.users, caller) && ReviewStatus(action).Some? ==>
      r.outcome == StatusUpdated(ReviewStatus(action).value)
    ensures r.state.parcels == s.parcels && r.state.payments == s.payments && r.state.nextId == s.nextId
    ensures r.state.riders.Keys == s.riders.Keys && r.state.users.Keys == s.users.Keys
    ensures forall i :: i in s.riders ==>
      && r.state.riders[i].email == s.riders[i].email
      && r.state.riders[i].workStatus == s.riders[i].workStatus
    ensures forall i :: i in s.riders && i != id ==> r.state.riders[i] == s.riders[i]
    ensures r.outcome.StatusUpdated? && id in s.riders ==> r.state.riders[id].status == r.outcome.newStatus
    ensures forall e :: e in s.users ==> r.state.users[e].email == s.users[e].email
    ensures forall e :: e in s.users && (e != email || r.outcome != StatusUpdated(StatusApproved)) ==>
      r.state.users[e] == s.users[e]
    ensures r.outcome == StatusUpdated(StatusApproved) && email in s.users ==>
      r.state.users[email].role == Some(RoleRider)
  {
    if !IsAdmin(s.users, caller) then Transition(s, Forbidden)
    else
      match ReviewStatus(action)
      case None => Transition(s, InvalidAction)
      case Some(newStatus) =>
        var riders' := if id in s.riders then s.riders[id := s.riders[id].(status := newStatus)] else s.riders;
        var users' := if newStatus == StatusApproved && email in s.users
                      then s.users[email := s.users[email].(role := Some(RoleRider))]
                      else s.users;
        Transition(s.(riders := riders', users := users'), StatusUpdated(newStatus))
  }

  /** The riders whose status equals `status`, with their documents. */
  function RidersWithStatus(riders: map<Id, Rider>, status: string): (r: map<Id, Rider>)
    ensures forall id :: id in r <==> id in riders && riders[id].status == status
    ensures forall id :: id in r ==> r[id] == riders[id]
  {
    map id | id in riders && riders[id].status == status :: riders[id]
  }

  datatype Listing = Denied | Listed(riders: map<Id, Rider>)

  /** The admin-only list of pending applications. */
  function PendingRiders(s: State, caller: Email): (r: Listing)
    ensures r.Denied? <==> !IsAdmin(s.users, caller)
    ensures r.Listed? ==> forall id :: id in r.riders <==> id in s.riders && s.riders[id].status == StatusPending
    ensures r.Listed? ==> forall id :: id in r.riders ==> r.riders[id] == s.riders[id]
  {
    if IsAdmin(s.users, caller) then Listed(RidersWithStatus(s.riders, StatusPending)) else Denied
  }

  /** The admin-only list of approved riders. */
  function ApprovedRiders(s: State, caller: Email): (r: Listing)
    ensures r.Denied? <==> !IsAdmin(s.users, caller)
    ensures r.Listed? ==> forall id :: id in r.riders <==> id in s.riders && s.riders[id].status == StatusApproved
    ensures r.Listed? ==> forall id :: id in r.riders ==> r.riders[id] == s.riders[id]
  {
    if IsAdmin(s.users, caller) then Listed(RidersWithStatus(s.riders, StatusApproved)) else Denied
  }

  /** Applying a second time with the same email is rejected, even after the
      first application was declined. */
  lemma ApplyTwiceRejected(s: State, first: Application, second: Application, admin: Email, decision: Option<string>, promoted: Email)
    requires forall id :: id in s.riders ==> id < s.nextId
    requires first.email == second.email
    requires Apply(s, first).outcome.RiderInserted?
    ensures var t := Apply(s, first).state;
      var u := Review(t, admin, s.nextId, decision, promoted).state;
      Apply(u, second) == Transition(u, AlreadyApplied)
  {
    var t := Apply(s, first).state;
    var u := Review(t, admin, s.nextId, decision, promoted).state;
    assert u.riders[s.nextId].email == second.email;
  }

  /** A default application shows up in the pending list and, once approved,
      moves to the approved list. */
  lemma ApplicationMovesFromPendingToApproved(s: State, app: Application, admin: Email, promoted: Email)
    requires forall id :: id in s.riders ==> id < s.nextId
    requires !HasRiderWithEmail(s.riders, app.email)
    requires app.status == None
    requires IsAdmin(s.users, admin)
    requires admin != promoted
    ensures var t := Apply(s, app).state;
      var u := Review(t, admin, s.nextId, Some(ActionApprove), promoted).state;
      && PendingRiders(t, admin).Listed?
      && s.nextId in PendingRiders(t, admin).riders
      && ApprovedRiders(u, admin).Listed?
      && s.nextId in ApprovedRiders(u, admin).riders
      && s.nextId !in PendingRiders(u, admin).riders
  {
    var t := Apply(s, app).state;
    assert t.users == s.users;
    var u := Review(t, admin, s.nextId, Some(ActionApprove), promoted).state;
    assert u.users[admin] == t.users[admin];
  }

  /** Approval promotes the user named in the request even when the rider id
      matches no application, so a "rider" role does not imply an approved
      application. */
  lemma ApprovalPromotesWithoutApplication(s: State, admin: Email, id: Id, email: Email)
    requires IsAdmin(s.users, admin)
    requires id !in s.riders
    requires email in s.users
    requires !HasRiderWithEmail(s.riders, email)
    ensures var t := Review(s, admin, id, Some(ActionApprove), email).state;
      && GetRole(t.users, email) == (if email == "" then EmailRequired else RoleIs(RoleRider))
      && !HasRiderWithEmail(t.riders, email)
  {
    var t := Review(s, admin, id, Some(ActionApprove), email).state;
    assert t.riders == s.riders;
  }

  /** Declining never changes any user. */
  lemma DeclineKeepsRoles(s: State, caller: Email, id: Id, email: Email)
    ensures Review(s, caller, id, Some(ActionDecline), email).state.users == s.users
  {
  }
}
