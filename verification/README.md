# Parcel-delivery workflow — a Dafny model

This project models the workflow core of a parcel-delivery backend. Users sign in and register. Riders apply, and an admin approves or declines them; approval promotes a user to the `rider` role. An admin assigns a rider to a parcel. A payment submission for a parcel (the endpoint checks neither who submits it nor whether they own the parcel) marks it paid and appends an entry to a payment ledger.

The four document collections become one immutable `State`:

- `users`: a map keyed by email;
- `riders`: a map keyed by id;
- `parcels`: a map keyed by id;
- `payments`: an append-only sequence;
- `nextId`: a counter that supplies fresh document ids.

Every mutating handler is a pure function from a state and a request to a `Transition`. A transition is the new state plus an `Outcome` tag, and every rejection leaves the state unchanged.

Modules:

- `Types`: the documents, the state, the outcomes, and the constants the handlers compare against.
- `Roles`: the admin guard, user registration and the role lookup.
- `Riders`: rider applications, the admin review and the pending/approved listings.
- `Parcels`: rider assignment and the pending-for-rider query.
- `Payments`: payment recording and the per-parcel ledger count.
- `Workflow`: the state machine over all requests, its invariant, and the proofs that every request preserves it.

The invariant `Workflow.Inv` says:

- every user is stored under its own email;
- rider ids are below the counter;
- no two rider documents share an email;
- every ledger entry references an existing, paid parcel;
- no parcel has more than one ledger entry, and every paid parcel has exactly one;
- every parcel in the `"Assigned Rider"` status names a rider, and some rider document with that email is busy (only assignment writes a parcel's status or rider, and it writes both).

## Behaviour worth knowing

- A rider application is rejected if *any* rider document has the same email, whatever its status, declined included.
- A new rider document keeps a posted `status`, so an applicant can post `approved`; only an absent or empty status becomes `pending`. The posted `workStatus` is stored as is, with no default.
- Registration stores the posted document as is, including a posted `role`, so a new user can register as `admin`.
- Review promotes the user whose email comes in the request body, not the rider document's email, and it does so even when the rider id matches no document. `Riders.ApprovalPromotesWithoutApplication` shows that a user can hold the `rider` role with no rider document for that email.
- An unknown rider id in a review is not reported: the rider update matches nothing and the handler still answers success.
- A review overwrites any earlier decision: a declined application can later be approved, and the other way round.
- Approving with an admin's own email in the request overwrites that admin's role with `rider`.
- Assignment checks neither the rider's application status nor its work status. A missing parcel still leaves the rider busy.
- Only the payment handler checks what a write matched: it inserts the ledger entry only when the parcel update modified a document. No other write is checked. In a review, the rider status update and the role update on approval are unchecked. In an assignment, the parcel update and the rider update are unchecked. Each handler is one atomic transition here.
- The role lookup answers with the first response the handler sends: an empty email gives `EmailRequired`, and an unknown email gives `UserNotFound`. The handler does not stop after those sends. For an unknown email it then reads the role of a missing document, which throws; its error branch then tries to send a second response, which throws out of the handler. The client has already received the first answer.

## Model

| member | source | states |
|---|---|---|
| Roles.IsAdmin | index.js:70-80 | The admin guard admits only callers that have a user document whose role is `admin`. For a non-empty email, it admits the caller exactly when the role lookup answers `admin`. |
| Workflow.NonAdminChangesNothing | index.js:70-80 | A caller without an admin user document is answered Forbidden by review and by assignment, and the state is unchanged. |
| Roles.RegisterUser | index.js:82-93 | An existing email gives UserExists and no change. Otherwise exactly one user is added under the posted email, holding the posted document. All other users, and the other collections, are unchanged. |
| Roles.RegisterTwiceKeepsFirst | index.js:84-91 | Registering twice with one email stores the first document; the second call reports UserExists. |
| Roles.GetRole | index.js:95-113 | An empty email gives EmailRequired, and an unknown email gives UserNotFound. Otherwise the answer is the stored non-empty role, or `user` when the role is absent or empty. |
| Roles.RegisteredWithoutRoleIsUser | index.js:108 | A user registered without a role reads back as `user`. |
| Riders.Apply | index.js:214-227 | The application is rejected iff some rider document has its email, and then nothing changes. Otherwise exactly one rider is added under a fresh id. It has the posted email and work status, and the posted status unless that is absent or empty, in which case `pending`. |
| Riders.ApplyTwiceRejected | index.js:218-222 | A second application with the same email is rejected, even after the first was approved or declined. |
| Riders.ReviewStatus | index.js:356-360 | `approve` maps to `approved` and `decline` to `declined`; every other action, including a missing one, is invalid. |
| Riders.Review | index.js:351-383 | A non-admin caller is Forbidden, and an invalid action is rejected; both change nothing. An admin with a valid action always gets StatusUpdated with the mapped status, whether or not the rider id exists. Then the rider with the id (if any) gets the new status and keeps its email and work status. Only on approval does the user with the request's email (if any) get role `rider`; every other user is unchanged. |
| Riders.DeclineKeepsRoles | index.js:369-376 | A decline leaves every user unchanged. |
| Riders.ApprovalPromotesWithoutApplication | index.js:363-376 | Approving an id that matches no rider still gives the request's user the role `rider`, while no rider document has that email. |
| Riders.PendingRiders | index.js:310-319 | Non-admins are denied. Admins get exactly the riders whose status is `pending`, with their stored documents. |
| Riders.ApprovedRiders | index.js:321-331 | Non-admins are denied. Admins get exactly the riders whose status is `approved`, with their stored documents. |
| Riders.ApplicationMovesFromPendingToApproved | index.js:224-225 | An application posted without a status is listed as pending. After approval it is listed as approved and no longer as pending. |
| Parcels.AssignRider | index.js:244-288 | A non-admin caller is Forbidden, and an unknown rider id is RiderNotFound; both change nothing. An admin with a known rider id always gets RiderAssigned. Then the parcel (if it exists) gets status `Assigned Rider` and the rider's email, and keeps its payment status. The rider becomes `busy`. All other parcels and riders, the users and the ledger are unchanged. |
| Parcels.PendingForRider | index.js:290-307 | The query returns exactly the parcels assigned to the email whose status is `Assigned Rider`, with their documents. |
| Parcels.AssignedParcelIsPendingForRider | index.js:259-267 | After an assignment, the parcel is pending for the rider's email and for no other email. |
| Parcels.AssignmentOnlyMovesOneParcel | index.js:259-267 | An assignment changes no email's pending list except in the assigned parcel. |
| Parcels.BusyRiderCanBeReassigned | index.js:250-275 | A rider who is already busy is assigned again without complaint. |
| Parcels.MissingParcelStillMarksRiderBusy | index.js:259-275 | An assignment to a missing parcel reports success, changes no parcel and still marks the rider busy. |
| Payments.SetPaid | index.js:432-440 | The update gives the parcel with the id, if any, the payment status `paid`, and writes nothing else. |
| Payments.PaymentChanges | index.js:432-444 | The update modifies a document (non-zero modified count) exactly when it changes the collection, which is when the parcel exists and is not already paid. |
| Payments.RecordPayment | index.js:428-467 | A missing or already-paid parcel gives NotFoundOrAlreadyPaid and no change. Otherwise the parcel becomes paid and nothing else changes in it. Exactly one entry with the request's parcel id, email, amount, method and transaction id is appended. The parcel's ledger count rises by one and every other count stays the same. |
| Payments.PayTwiceRecordsOnce | index.js:432-456 | A second payment for the same parcel is rejected and changes nothing. Together the two calls add one entry if the parcel was unpaid, and none otherwise. |
| Payments.PaymentOnlyAfterFreshFlip | index.js:442-456 | The ledger grows only if the parcel existed, was not paid before, and is paid afterwards. |
| Payments.PaymentsForAppend | index.js:456 | Appending an entry raises the count of its parcel by one and leaves every other count unchanged. |
| Workflow.Step | index.js:82-467 | Every rejection leaves the state unchanged, and Forbidden comes only from the admin routes, exactly for non-admins. The ledger grows by at most one entry, and only for a payment that flips its parcel to paid. Rider ids stay fresh. |
| Workflow.RegisterPreservesInv | index.js:84-91 | Registration preserves the invariant. |
| Workflow.ApplyPreservesInv | index.js:218-225 | A rider application preserves the invariant. In particular, rider emails stay unique. |
| Workflow.ReviewPreservesInv | index.js:363-376 | A review preserves the invariant. |
| Workflow.AssignPreservesInv | index.js:259-275 | An assignment preserves the invariant. In particular, every parcel in the `Assigned Rider` status still names a rider whose document is busy, and no payment status changes. |
| Workflow.PayPreservesInv | index.js:432-456 | A payment preserves the invariant. Every entry references a paid parcel, each parcel has at most one entry, and each paid parcel has exactly one. |
| Workflow.RunPreservesInv | index.js:82-467 | Every sequence of the five modelled requests (register, apply, review, assign, pay) preserves the invariant, by induction over the run with the per-request lemmas. |
| Workflow.RunExtendsLedger | index.js:446-456 | Along any run the old ledger is a prefix of the new one, which is at most one entry longer per request. |
| Workflow.DeliveryScenario | index.js:214-456 | End to end: an applicant applies (pending) and is approved (approved, role `rider`). The applicant is then assigned a parcel (`Assigned Rider`, busy), and a payment of 500 leaves the parcel paid with exactly that one ledger entry. |

## Left out

- Bearer-token verification (index.js:46-68) calls an external identity provider. The caller's verified email is a parameter of the admin routes instead.
- Payment-intent creation (index.js:469-483) is a call to an external payment processor with no store effect.
- The database client, environment loading, CORS, routing, the listening server and console logging are I/O and configuration.
- Parsing ids into store identifiers, and the timestamps (`paidAt`, `paidAtString`), are not modelled. Ids are opaque naturals from a counter; a malformed id, which throws in the source, is not modelled.
- Request bodies whose `email` is missing are not modelled: emails are always strings.
- Payment amounts are modelled as integers. The handler copies the body's `amount` into the ledger untouched, so it can be fractional, a string, or missing.
- The payment body key for the transaction id is spelled `transectionId` in the handler. `PaymentRequest.transactionId` stands for that key; a body that uses the correct spelling stores no transaction id, which is not modelled.
- Sorting by creation or payment time, the regex user search, and the parcel and payment listings are plain reads.
- Parcel creation (index.js:179-188) and deletion (index.js:201-212) are not modelled, and they do NOT preserve `Workflow.Inv`. Creation stores the posted body as is, so a parcel can arrive already `Assigned Rider` with no busy rider, or already `paid` with no ledger entry. Deletion can remove a paid parcel that a ledger entry references. `Workflow.RunPreservesInv` covers only runs of the five modelled requests, starting from any state that satisfies the invariant.
- The role change by user id (index.js:139-158) is not modelled: its role check sends a response but does not stop the handler, so it promises no rejection.
- The rider status update by id (index.js:334-348) writes an arbitrary status, and its guards run in the wrong order.
- Tracking-log insertion (index.js:386-402) uses a collection that is never defined.
- Concurrent requests are not modelled, for example two assignments of one rider interleaving. Each handler is one atomic, sequential transition.
- Errors thrown by the store, and the handlers' catch branches, are not modelled.
