/**
 The documents of the parcel-delivery backend, with the four collections
 (users, riders, parcels, payments) gathered into one immutable state value.
 Fields that a request body may omit are `Option`s; fields the workflow never
 reads (timestamps, free-text parcel details) are not modelled.
 */
module Types {

  datatype Option<+T> = None | Some(value: T)

  type Email = string

  /** Document identifiers. The store generates them; here they are naturals
      drawn from the state's `nextId` counter. */
  type Id = nat

  const RoleAdmin: string := "admin"
  const RoleUser: string := "user"
  const RoleRider: string := "rider"

  const StatusPending: string := "pending"
  const StatusApproved: string := "approved"
  const StatusDeclined: string := "declined"

  const ActionApprove: string := "approve"
  const ActionDecline: string := "decline"

  const WorkBusy: string := "busy"
  const ParcelAssigned: string := "Assigned Rider"
  const PaymentPaid: string := "paid"

  /** A user document, keyed by its email in the users collection. */
  datatype User = User(email: Email, role: Option<string>)

  /** A rider application as posted by the applicant. */
  datatype Application = Application(email: Email, status: Option<string>, workStatus: Option<string>)

  /** A stored rider document; `status` is always set on insertion. */
  datatype Rider = Rider(email: Email, status: string, workStatus: Option<string>)

  datatype Parcel = Parcel(
    ownerEmail: Email,
    status: Option<string>,
    assignedRider: Option<Email>,
    paymentStatus: Option<string>)

  /** The body of a payment submission. `amount` stands for a JSON value that
      the handler copies untouched; it is modelled as an integer.
      `transactionId` stands for the body key spelled `transectionId`, the only
      key the handler reads: a body that spells it `transactionId` stores no
      transaction id. */
  datatype PaymentRequest = PaymentRequest(parcelId: Id, email: Email, amount: int, paymentMethod: string, transactionId: string)

  /** A ledger entry; the paid-at timestamps are left out. */
  datatype Payment = Payment(parcelId: Id, email: Email, amount: int, paymentMethod: string, transactionId: string)

  datatype State = State(
    users: map<Email, User>,
    riders: map<Id, Rider>,
    parcels: map<Id, Parcel>,
    payments: seq<Payment>,
    nextId: Id)

  /** What a handler answers. Rejections leave the state as it was. */
  datatype Outcome =
    | Forbidden
    | UserExists
    | UserInserted
    | AlreadyApplied
    | RiderInserted(id: Id)
    | InvalidAction
    | StatusUpdated(newStatus: string)
    | RiderNotFound
    | RiderAssigned
    | NotFoundOrAlreadyPaid
    | PaymentRecorded(index: nat)
  {
    predicate IsRejection() {
      Forbidden? || UserExists? || AlreadyApplied? || InvalidAction? || RiderNotFound? || NotFoundOrAlreadyPaid?
    }
  }

  datatype Transition = Transition(state: State, outcome: Outcome)

  /** JavaScript's `v || d` on an optional string: an absent or empty value is falsy. */
  function OrDefault(v: Option<string>, d: string): (r: string)
    ensures v.Some? && v.value != "" ==> r == v.value
    ensures v.None? || v.value == "" ==> r == d
  {
    if v.Some? && v.value != "" then v.value else d
  }

  /** The state differs from `s` at most in the given collections. */
  predicate OnlyUsersChanged(s: State, t: State) {
    t.riders == s.riders && t.parcels == s.parcels && t.payments == s.payments && t.nextId == s.nextId
  }

  predicate OnlyRidersChanged(s: State, t: State) {
    t.users == s.users && t.parcels == s.parcels && t.payments == s.payments
  }
}
