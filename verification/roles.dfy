/**
 The users collection: the admin guard, first-sign-in registration and the
 role lookup.
 */
module Roles {
  import opened Types

  /** The admin guard: the caller (the email of the verified token) must have a
      user document whose role is exactly "admin". For a non-empty email that is
      the same as the role lookup answering "admin". */
  predicate IsAdmin(users: map<Email, User>, caller: Email)
    ensures IsAdmin(users, caller) ==> caller in users && users[caller].role == Some(RoleAdmin)
    ensures caller != "" ==> (IsAdmin(users, caller) <==> GetRole(users, caller) == RoleIs(RoleAdmin))
  {
    caller in users && users[caller].role == Some(RoleAdmin)
  }

  /** Registration on first sign-in: the posted document is stored under its
      email unless a user with that email already exists. */
  function RegisterUser(s: State, body: User): (r: Transition)
    ensures r.outcome == UserExists <==> body.email in s.users
    ensures r.outcome == UserExists ==> r.state == s
    ensures r.outcome != UserExists ==>
      && r.outcome == UserInserted
      && r.state.users.Keys == s.users.Keys + {body.email}
      && |r.state.users| == |s.users| + 1
      && r.state.users[body.email] == body
      && (forall e :: e in s.users ==> r.state.users[e] == s.users[e])
    ensures OnlyUsersChanged(s, r.state)
  {
    if body.email in s.users then Transition(s, UserExists)
    else Transition(s.(users := s.users[body.email := body]), UserInserted)
  }

  /** The answer to a role lookup: the first response the handler sends. */
  datatype RoleAnswer = EmailRequired | UserNotFound | RoleIs(role: string)

  /** The stored role, or "user" when the document has no (or an empty) role. */
  function GetRole(users: map<Email, User>, email: Email): (r: RoleAnswer)
    ensures r == EmailRequired <==> email == ""
    ensures r == UserNotFound <==> email != "" && email !in users
    ensures r.RoleIs? ==> email in users && r.role != ""
    ensures r.RoleIs? && users[email].role.Some? && users[email].role.value != "" ==> r.role == users[email].role.value
    ensures r.RoleIs? && (users[email].role.None? || users[email].role.value == "") ==> r.role == RoleUser
  {
    if email == "" then EmailRequired
    else if email !in users then UserNotFound
    else RoleIs(OrDefault(users[email].role, RoleUser))
  }

  /** Registering twice with the same email stores only the first document. */
  lemma RegisterTwiceKeepsFirst(s: State, first: User, second: User)
    requires first.email == second.email
    requires first.email !in s.users
    ensures var t := RegisterUser(s, first);
      && t.outcome == UserInserted
      && RegisterUser(t.state, second) == Transition(t.state, UserExists)
      && t.state.users[first.email] == first
  {
  }

  /** A newly registered document without a role reads back as "user". */
  lemma RegisteredWithoutRoleIsUser(s: State, body: User)
    requires body.email != "" && body.email !in s.users
    requires body.role == None
    ensures GetRole(RegisterUser(s, body).state.users, body.email) == RoleIs(RoleUser)
  {
  }
}
