# Family cabin membership lifecycle, in Dafny

The familycabin server keeps two MongoDB collections. A **User** has a global role (`USER` or `GLOBAL_ADMIN`), a list of cabin associations `(cabinId, role)` and a list of notifications. A **Cabin** has a list of members `(userId, role)` and a list of membership requests `(userId, status)`. The GraphQL mutations move users through a lifecycle: create a cabin, request membership, approve or reject the request, remove a member, change a member's role, and mark notifications read. Each membership edge is written twice, once on each side: in `Cabin.members` and in `User.cabins`.

This project models that lifecycle as transitions over one immutable store:

- `StoreModel.Store` holds a map of users, a map of cabins, and the generator of notification ids.
- Each resolver is a pure function that returns either the error it throws or the store after all of its writes.

The model proves that every mutation keeps the store invariants. So every store reachable, by calls of its users, from a store of users with no cabins satisfies them (such a store is what registration produces):

- **Dual-write symmetry:** an edge `(user, cabin, role)` is listed by the cabin iff it is listed by the user.
- **Unique membership:** a user appears at most once among a cabin's members, and a cabin at most once among a user's associations.
- **Single pending request:** each user has at most one `PENDING` request per cabin.
- **Pending means non-member:** a user with a pending request is not a member.
- **Known requesters:** every requester is a user.

The lifecycle promises across calls are proved too:

- a pending request cannot be repeated;
- an approved request cannot be approved again;
- a rejected user may ask again;
- exactly the cabin's admins are invited;
- every cabin-scoped mutation refuses an outsider.

Around the resolvers sit the membership queries of the two documents (`isAdmin`, `isMember`, `hasPendingRequest`, `isAdminOfCabin`, `isMemberOfCabin`) and the authentication middleware:

- where the bearer token is taken from (`split(' ').pop().trim()` with JavaScript whitespace);
- the payload `signToken` puts in it;
- the allow/deny decisions of `isAuthenticated` and `isAdmin`.

Modules:

| module | file | contents |
|---|---|---|
| `Wrappers` | wrappers.dfy | `Option`, `Result` |
| `Text` | text.dfy | `split(' ').pop()`, `trim()` |
| `CabinModel` | cabin.dfy | Cabin records, enums, queries, array updates |
| `UserModel` | user.dfy | User records, enums, queries, array updates, newest-first order |
| `Auth` | auth.dfy | token payload, token extraction, the middleware decisions |
| `StoreModel` | store.dfy | the store, single-user writes, the invariants |
| `Resolvers` | resolvers.dfy | the mutations, `users`, `myNotifications`, `login`, sequences of calls |
| `Preservation` | preservation.dfy | each mutation keeps the invariants |
| `Behaviour` | behaviour.dfy | properties across calls |

Modelling choices:

- A MongoDB update on a user id that does not exist does nothing. `Notify`, `AddAssociation`, `PullAssociation` and `SetAssociationRole` leave the store alone for such an id.
- The invariant proofs assume the caller's id names a stored user (`Preservation.KnownCaller`). Tokens are only signed for stored users, and no resolver deletes users.
- The clock is a `now` parameter. Notification ids come from a counter in the store. The id of a new cabin is a parameter; a taken id fails like any other insert error.
- Password comparison is a parameter of `Login`. Token signature checking and expiry are the `verify` parameter of the middleware.

The code has no "member not found" check in `removeCabinMember` and no last-admin guard in `changeMemberRole`; the model keeps both:

- `removeCabinMember` has no "member not found" check. Removing a non-member succeeds and still notifies that user (`Behaviour.RemoveNonMemberSucceeds`).
- `changeMemberRole` has no last-admin protection. A cabin can be left with no admin (`Behaviour.LastAdminCanBeDemoted`).

## Model

| member | source | states |
|---|---|---|
| CabinModel.ParseCabinRole | server/src/models/Cabin.js:33-37 | a member role string is accepted iff it is "ADMIN" or "MEMBER" |
| CabinModel.CabinRoleRoundTrip | server/src/models/Cabin.js:33-37 | role names and role parsing are inverse on the two accepted values |
| CabinModel.ScanAdmin | server/src/models/Cabin.js:68-72 | the `some` scan finds an ADMIN entry of u iff `Member(u, ADMIN)` is listed |
| CabinModel.ScanMember | server/src/models/Cabin.js:75-79 | the `some` scan finds u iff some entry has that user id, i.e. u is listed as ADMIN or as MEMBER |
| CabinModel.ScanPending | server/src/models/Cabin.js:82-88 | the `some` scan finds a request iff `(u, PENDING)` is listed |
| CabinModel.IsAdmin | server/src/models/Cabin.js:68-72 | isAdmin(u) iff some member has user id u and role ADMIN; isAdmin implies isMember |
| CabinModel.IsMember | server/src/models/Cabin.js:75-79 | isMember(u) iff some member has user id u, whatever its role |
| CabinModel.HasPendingRequest | server/src/models/Cabin.js:82-88 | true iff some request of u has status PENDING; APPROVED and REJECTED requests never count |
| CabinModel.PullMember | server/src/graphql/resolvers.js:455-458 | `$pull` keeps exactly the members whose user id is not u, and keeps members duplicate-free |
| CabinModel.PullMemberCount | server/src/graphql/resolvers.js:455-458 | `$pull` drops every entry of u and keeps every other entry exactly as many times as it was listed |
| CabinModel.PullMemberAppend | server/src/graphql/resolvers.js:455-458 | `$pull` works entry by entry and keeps the order: pulling from a concatenation concatenates the pulled parts |
| CabinModel.PullMemberAbsent | server/src/graphql/resolvers.js:455-458 | pulling a user that has no entry leaves the members exactly as they were |
| CabinModel.SetMemberRole | server/src/graphql/resolvers.js:505-510 | every entry of u takes the new role, every other entry is unchanged, user ids stay in place |
| CabinModel.SetMemberRoleEntries | server/src/graphql/resolvers.js:505-510 | after the role update u is listed with a role iff it is the new role and u was a member before; every other (user, role) entry is listed exactly as before |
| CabinModel.ResolvePending | server/src/graphql/resolvers.js:347-355 | the PENDING requests of u take the new status; all other requests and every user id stay as they were |
| CabinModel.AdminIds | server/src/graphql/resolvers.js:296 | the ADMIN filter lists each user as many times as it has ADMIN entries |
| CabinModel.AdminCountUnique | server/src/graphql/resolvers.js:296-311 | with duplicate-free members, a user is among the admins to notify once if an ADMIN member and never otherwise |
| CabinModel.UniqueMembersAppend | server/src/graphql/resolvers.js:352 | pushing a member whose user is not yet listed keeps members duplicate-free |
| CabinModel.AtMostOnePendingAppend | server/src/graphql/resolvers.js:283-293 | pushing a PENDING request for a user without one keeps one pending request per user |
| CabinModel.ResolvePendingEffect | server/src/graphql/resolvers.js:406-413 | after resolving, u has no pending request, others' pending requests are unchanged, and at most one pending per user is kept |
| CabinModel.ApprovedExcludes | server/src/graphql/resolvers.js:348-355 | approving (status APPROVED plus a new MEMBER) keeps "no pending requester is a member" for the cabin |
| CabinModel.RejectedExcludes | server/src/graphql/resolvers.js:407-413 | rejecting keeps "no pending requester is a member" for the cabin |
| CabinModel.FewerMembersExcludes | server/src/graphql/resolvers.js:455-458 | replacing the members by entries whose ids were already members keeps "no pending requester is a member" |
| CabinModel.RequestedExcludes | server/src/graphql/resolvers.js:272-293 | a new PENDING request of a non-member keeps "no pending requester is a member" |
| UserModel.ParseGlobalRole | server/src/models/User.js:40-44 | a global role string is accepted iff it is "USER" or "GLOBAL_ADMIN" |
| UserModel.GlobalRoleRoundTrip | server/src/models/User.js:40-44 | the stored name of every global role parses back to it, and every accepted string is the name of what it parses to |
| UserModel.NewNotification | server/src/models/User.js:81-84 | a new notification is unread |
| UserModel.ScanAdminOf | server/src/models/User.js:108-112 | the `some` scan finds an ADMIN entry of c iff `(c, ADMIN)` is listed |
| UserModel.ScanMemberOf | server/src/models/User.js:115-119 | the `some` scan finds c iff some association has cabin id c |
| UserModel.IsAdminOfCabin | server/src/models/User.js:108-112 | isAdminOfCabin(c) iff some association has cabin id c and role ADMIN; it implies isMemberOfCabin |
| UserModel.IsMemberOfCabin | server/src/models/User.js:115-119 | isMemberOfCabin(c) iff some association has cabin id c |
| UserModel.AnyAdminAssociation | server/src/middleware/auth.js:69 | true iff some association, of any cabin, has role ADMIN |
| UserModel.PullCabin | server/src/graphql/resolvers.js:464 | `$pull` keeps exactly the associations with other cabins, and keeps them duplicate-free |
| UserModel.PullCabinCount | server/src/graphql/resolvers.js:464 | `$pull` drops every association with c and keeps every other one exactly as many times as it was listed |
| UserModel.PullCabinAppend | server/src/graphql/resolvers.js:464 | `$pull` works association by association and keeps the order: pulling from a concatenation concatenates the pulled parts |
| UserModel.PullCabinAbsent | server/src/graphql/resolvers.js:464 | pulling a cabin with no association leaves the associations exactly as they were |
| UserModel.SetCabinRole | server/src/graphql/resolvers.js:513-525 | every association with c takes the new role, the others are unchanged, cabin ids stay in place |
| UserModel.SetCabinRoleEntries | server/src/graphql/resolvers.js:513-525 | after the role update the association with c carries a role iff it is the new role and c was associated before; every other association is listed exactly as before |
| UserModel.MarkRead | server/src/graphql/resolvers.js:542-546 | exactly the notifications with that id become read; nothing else about any notification changes |
| UserModel.MarkAllRead | server/src/graphql/resolvers.js:562-565 | every notification becomes read and nothing but the flag changes |
| UserModel.MarkAllReadIdempotent | server/src/graphql/resolvers.js:562-565 | marking all read twice equals marking once, and afterwards all are read |
| UserModel.PrependNewest | server/src/graphql/resolvers.js:95 | an entry at least as new as every entry of a newest-first list can go in front |
| UserModel.InsertNewestFirst | server/src/graphql/resolvers.js:95 | insertion into a newest-first list keeps it newest first and adds exactly that notification |
| UserModel.SortNewestFirst | server/src/graphql/resolvers.js:95 | the result is newest first and a permutation of the input |
| UserModel.UniqueCabinsAppend | server/src/graphql/resolvers.js:358-362 | pushing an association with a cabin not yet listed keeps associations duplicate-free |
| Text.LastSegment | server/src/middleware/auth.js:18 | `split(' ').pop()` is a suffix with no space, preceded by a space unless it is the whole string |
| Text.LastSegmentOfSpaceSeparated | server/src/middleware/auth.js:18 | for "prefix-ending-in-space + word", the last segment is the word |
| Text.TrimStart | server/src/middleware/auth.js:18 | removes exactly the leading JavaScript whitespace |
| Text.TrimEnd | server/src/middleware/auth.js:18 | removes exactly the trailing JavaScript whitespace |
| Text.Trim | server/src/middleware/auth.js:18 | `trim()` yields a slice of the input with whitespace only outside it and no whitespace at its ends |
| Text.TrimOfTrimmed | server/src/middleware/auth.js:18 | trimming a string without whitespace at its ends changes nothing |
| Auth.SignToken | server/src/middleware/auth.js:37-40 | the payload is exactly username, email, id, global role and the cabin associations at signing time |
| Auth.JsOr | server/src/middleware/auth.js:14 | `a \|\| b` is a when a is truthy and b otherwise, and is truthy iff one of them is |
| Auth.BearerToken | server/src/middleware/auth.js:18 | `split(' ').pop().trim()`: the trimmed last space-separated segment of the header, so it has no space and no whitespace at either end |
| Auth.RequestToken | server/src/middleware/auth.js:14-19 | without a truthy header: the body token if truthy, else the query token if truthy, else nothing truthy; with one: the trimmed last space-separated segment of the first truthy of body, query and header, which has no space |
| Auth.BodyTokenCutWhenHeaderPresent | server/src/middleware/auth.js:14-19 | with an Authorization header present, a body token "x y" is cut to "y" |
| Auth.AuthMiddleware | server/src/middleware/auth.js:12-34 | no token gives no user; otherwise the user is what verification yields, and a failed verification gives no user |
| Auth.AuthMiddlewareOnBearer | server/src/middleware/auth.js:12-34 | with only a header "scheme token", the context user is what the token verifies to |
| Auth.IsAuthenticated | server/src/middleware/auth.js:43-60 | passes on iff the header yields a non-empty token that verifies; otherwise 401 |
| Auth.IsAuthenticatedOnBearer | server/src/middleware/auth.js:43-60 | a header "scheme token" passes with the payload the token verifies to, and is answered 401 when it does not verify |
| Auth.IsAdminMiddleware | server/src/middleware/auth.js:63-74 | 401 iff no user; 403 iff not GLOBAL_ADMIN and no ADMIN association in the token, including when `cabins` is missing; otherwise pass on |
| Auth.BearerHeaderYieldsToken | server/src/middleware/auth.js:16-19 | a header "scheme token" yields exactly the token |
| Auth.BearerAbc | server/src/middleware/auth.js:16-19 | "Bearer abc" yields "abc" |
| Auth.AdminGateOnSignedToken | server/src/middleware/auth.js:63-74 | for a freshly signed token, isAdmin passes iff the user is a global admin or administers some cabin |
| StoreModel.Notify | server/src/graphql/resolvers.js:415-427 | pushing one notification to v appends exactly one unread notification of that kind and cabin to v and changes nothing else |
| StoreModel.NotifyEach | server/src/graphql/resolvers.js:296-311 | the loop over the admins gives each user as many new notifications as it occurs among the recipients |
| StoreModel.AppendedTrans | server/src/graphql/resolvers.js:298-311 | two rounds of appended notifications compose into one |
| StoreModel.AddAssociation | server/src/graphql/resolvers.js:178-185 | `$push` of an association changes only that user's list, by one entry at the end |
| StoreModel.PullAssociation | server/src/graphql/resolvers.js:461-464 | `$pull` of a cabin changes only that user's associations |
| StoreModel.SetAssociationRole | server/src/graphql/resolvers.js:513-516 | the filtered `$set` changes only that user's associations |
| StoreModel.PullCabinFromAll | server/src/graphql/resolvers.js:244-247 | `updateMany` with `$pull` removes the cabin from every user's associations and changes nothing else |
| StoreModel.MemberBothSides | server/src/models/User.js:108-119 | under symmetry, isMember/isAdmin on the cabin agree with isMemberOfCabin/isAdminOfCabin on the user |
| Resolvers.CabinGate | server/src/graphql/resolvers.js:226-241 | logged in, then cabin found, then ADMIN of the cabin or GLOBAL_ADMIN, in that order, each with its error |
| Resolvers.ValidCabinInput | server/src/models/Cabin.js:5-17 | the input passes the `required` validators iff the cabin stored from it has a non-empty name, description and location |
| Resolvers.NewCabinInfo | server/src/models/Cabin.js:5-21 | the stored name is the given name with surrounding whitespace trimmed; description and location as given; the default image when none is given |
| Resolvers.CreateCabin | server/src/graphql/resolvers.js:165-192 | fails without login; otherwise the new cabin holds the trimmed and defaulted input with all required fields present, its only member is the creator as ADMIN, and the creator gains that cabin as ADMIN; a bad input fails |
| Resolvers.ValidCabinUpdate | server/src/graphql/resolvers.js:212-216 | on a cabin with its required fields, the update validators pass iff the updated cabin still has them |
| Resolvers.ApplyCabinUpdate | server/src/graphql/resolvers.js:212-216 | each supplied field replaces the stored one (the name trimmed) and each absent field keeps its stored value |
| Resolvers.UpdateCabin | server/src/graphql/resolvers.js:195-223 | after the gate, that cabin's descriptive fields become the `$set` of the update and nothing else changes; an emptied required field fails validation |
| Resolvers.DeleteCabin | server/src/graphql/resolvers.js:226-257 | after the gate, the cabin is gone and every user is left as it was except that its associations with the cabin are pulled |
| Resolvers.RequestCabinMembership | server/src/graphql/resolvers.js:260-318 | refuses members and pending requesters; otherwise appends one PENDING request and each ADMIN entry earns an INVITE |
| Resolvers.ApproveMembershipRequest | server/src/graphql/resolvers.js:321-377 | after the gate, fails without a pending request; otherwise the request becomes APPROVED, a MEMBER edge is added on both sides, and one APPROVAL notification is sent |
| Resolvers.RejectMembershipRequest | server/src/graphql/resolvers.js:380-434 | after the gate, fails without a pending request; otherwise the request becomes REJECTED, no edge is added, and one APPROVAL-type notification is sent |
| Resolvers.RemoveCabinMember | server/src/graphql/resolvers.js:437-480 | after the gate it always succeeds; the cabin changes only by the `$pull` of v's member entries, the cabin leaves v's list, v gets a SYSTEM notification, requests are untouched |
| Resolvers.ChangeMemberRole | server/src/graphql/resolvers.js:483-533 | the role string is checked after the gate; v's entries on both sides take the role, others are untouched, v gets a SYSTEM notification |
| Resolvers.MarkNotificationRead | server/src/graphql/resolvers.js:536-553 | a logged-in call always succeeds, even for a missing caller or id; only the caller's notifications with that id become read |
| Resolvers.MarkAllNotificationsRead | server/src/graphql/resolvers.js:556-572 | a logged-in call always succeeds; every notification of the caller becomes read, nothing else changes |
| Resolvers.ListUsers | server/src/graphql/resolvers.js:24-35 | the users are listed iff the caller is a GLOBAL_ADMIN by token, else 'Not authorized' |
| Behaviour.ListUsersForSignedToken | server/src/graphql/resolvers.js:24-35 | a freshly signed token is served the user list iff its user is a GLOBAL_ADMIN |
| Resolvers.MyNotifications | server/src/graphql/resolvers.js:88-100 | the caller's notifications, newest first, same contents; a missing user fails |
| Resolvers.FindByUsername | server/src/graphql/resolvers.js:107 | the filter name is trimmed, as the `trim` setter of User.js does; finds a user with the trimmed name if there is one, and reports none only if no user has it |
| Resolvers.Login | server/src/graphql/resolvers.js:105-125 | success iff a user with the trimmed name has a matching password, and then the token payload is that user's; failures are 'Incorrect credentials' |
| Resolvers.Step | server/src/graphql/resolvers.js:165-572 | no mutation succeeds without login, and none adds or removes users |
| Resolvers.Run | server/src/graphql/resolvers.js:165-572 | a sequence of calls keeps the set of users |
| Preservation.AddedCabinEdge | server/src/graphql/resolvers.js:171-175 | a cabin created with the single ADMIN member me adds exactly the cabin-side edge (me, new cabin, ADMIN) |
| Preservation.AddedUserEdge | server/src/graphql/resolvers.js:178-185 | pushing the association (new cabin, ADMIN) onto me adds exactly that user-side edge |
| Preservation.CreateCabinEdge | server/src/graphql/resolvers.js:171-185 | createCabin adds exactly the edge (creator, new cabin, ADMIN) on both sides |
| Preservation.AddedCabinRequests | server/src/graphql/resolvers.js:171-175 | adding a cabin with no requests, leaving the other cabins and the users as they are, keeps the request invariants |
| Preservation.CreateCabinRequests | server/src/graphql/resolvers.js:171-185 | createCabin keeps one pending request per user, pending requesters outside the members, and requesters known |
| Preservation.CreateCabinSymmetric | server/src/graphql/resolvers.js:171-185 | createCabin keeps the two sides in agreement |
| Preservation.CreateCabinUnique | server/src/graphql/resolvers.js:171-185 | createCabin keeps members and associations duplicate-free |
| Preservation.CreateCabinValid | server/src/graphql/resolvers.js:165-192 | createCabin keeps every invariant |
| Preservation.PendingRequesterKnown | server/src/graphql/resolvers.js:283-293 | under the invariant, a pending requester is a user |
| Preservation.ApproveEdge | server/src/graphql/resolvers.js:348-370 | approve adds exactly the edge (v, c, MEMBER) on both sides |
| Preservation.ApproveSymmetric | server/src/graphql/resolvers.js:348-370 | approve keeps the two sides in agreement |
| Preservation.ApproveUnique | server/src/graphql/resolvers.js:348-370 | approve keeps members and associations duplicate-free |
| Preservation.ApproveSinglePending | server/src/graphql/resolvers.js:348-355 | approve keeps at most one pending request per user in every cabin |
| Preservation.ApproveRequestersKnown | server/src/graphql/resolvers.js:348-355 | approve rewrites only statuses, so every requester stays a known user |
| Preservation.ApprovePendingNotMember | server/src/graphql/resolvers.js:348-355 | approve keeps pending requesters out of the members |
| Preservation.ApproveValid | server/src/graphql/resolvers.js:321-377 | approve keeps every invariant |
| Preservation.SameMembershipKeeps | server/src/graphql/resolvers.js:212-216 | a step that leaves members and associations alone keeps symmetry and uniqueness |
| Preservation.SameRequestsKeep | server/src/graphql/resolvers.js:212-216 | a step that also leaves requests alone keeps the request invariants |
| Preservation.UpdateCabinValid | server/src/graphql/resolvers.js:195-223 | updateCabin keeps every invariant |
| Preservation.MarkNotificationReadValid | server/src/graphql/resolvers.js:536-553 | markNotificationRead keeps every invariant |
| Preservation.MarkAllNotificationsReadValid | server/src/graphql/resolvers.js:556-572 | markAllNotificationsRead keeps every invariant |
| Preservation.OneCabinRequests | server/src/graphql/resolvers.js:348-355 | a mutation that rewrites a single cabin keeps the request invariants whenever the rewritten cabin satisfies them and lists known requesters |
| Preservation.RejectMembership | server/src/graphql/resolvers.js:407-413 | reject leaves symmetry and duplicate-free members and associations intact |
| Preservation.RejectRequests | server/src/graphql/resolvers.js:398-413 | afterwards v has no pending request for c and is still not a member; one pending request per user, pending requesters outside the members and known requesters are kept |
| Preservation.RejectValid | server/src/graphql/resolvers.js:380-434 | reject keeps every invariant |
| Preservation.RequestMembership | server/src/graphql/resolvers.js:283-311 | a membership request leaves symmetry and duplicate-free members and associations intact |
| Preservation.RequestRequests | server/src/graphql/resolvers.js:272-293 | a request by a non-member with no pending request keeps one pending request per user, pending requesters outside the members, requesters known |
| Preservation.RequestValid | server/src/graphql/resolvers.js:260-318 | requestCabinMembership keeps every invariant |
| Preservation.RemoveEdge | server/src/graphql/resolvers.js:455-473 | remove takes away exactly the edges between v and c, on both sides |
| Preservation.RemoveSymmetric | server/src/graphql/resolvers.js:455-473 | removeCabinMember keeps the two sides of every membership edge in agreement |
| Preservation.RemoveUnique | server/src/graphql/resolvers.js:455-464 | the two `$pull`s keep members and associations duplicate-free |
| Preservation.RemoveRequests | server/src/graphql/resolvers.js:455-458 | every cabin's requests are left in place, and one pending request per user, pending requesters outside the members and known requesters are kept |
| Preservation.RemoveValid | server/src/graphql/resolvers.js:437-480 | removeCabinMember keeps every invariant |
| Preservation.ChangeRoleCabinEdge | server/src/graphql/resolvers.js:505-510 | on the cabin side, the (v, c) edge holds afterwards with exactly the new role if v was a member, and every other edge is unchanged |
| Preservation.ChangeRoleUserEdge | server/src/graphql/resolvers.js:513-525 | on the user side, v's association with c holds afterwards with exactly the new role if it existed, and every other association is unchanged |
| Preservation.ChangeRoleSymmetric | server/src/graphql/resolvers.js:505-526 | change-role keeps the two sides in agreement |
| Preservation.ChangeRoleUnique | server/src/graphql/resolvers.js:505-526 | change-role keeps members and associations duplicate-free |
| Preservation.ChangeRoleRequests | server/src/graphql/resolvers.js:505-526 | change-role keeps the request invariants |
| Preservation.ChangeRoleValid | server/src/graphql/resolvers.js:483-533 | changeMemberRole keeps every invariant |
| Preservation.DeleteValid | server/src/graphql/resolvers.js:226-257 | deleteCabin keeps every invariant |
| Preservation.StepValid | server/src/graphql/resolvers.js:165-572 | every mutation keeps every invariant |
| Preservation.RunValid | server/src/graphql/resolvers.js:165-572 | any sequence of calls by users keeps every invariant |
| Preservation.NoCabinsValid | server/src/graphql/resolvers.js:165-572 | a store with no cabins whose users have no cabin associations satisfies every invariant |
| Preservation.FreshUsersRunValid | server/src/graphql/resolvers.js:165-572 | every store reached from such a store by calls of its users satisfies every invariant |
| Behaviour.RequestTwiceRefused | server/src/graphql/resolvers.js:277-280 | a second request for the same cabin is refused as already requested |
| Behaviour.RequestInvitesEachAdminOnce | server/src/graphql/resolvers.js:295-311 | each ADMIN gets exactly one INVITE about the cabin, and every other user gets none |
| Behaviour.ApproveOutcome | server/src/graphql/resolvers.js:347-362 | after approve, v is a member on both sides and has no pending request; v had a PENDING request, the list keeps its length, and every position that held v's PENDING request now holds it as APPROVED |
| Behaviour.ApproveNotifies | server/src/graphql/resolvers.js:358-370 | after approve, v has exactly one new notification, an unread APPROVAL about the cabin |
| Behaviour.ApproveTwiceRefused | server/src/graphql/resolvers.js:338-345 | a second approve of the same request finds no pending request |
| Behaviour.RejectThenRequestAgain | server/src/graphql/resolvers.js:406-413 | after reject, v is not a member and has no pending request; the list keeps its length and every position that held v's PENDING request now holds it as REJECTED; v may request again |
| Behaviour.RemoveNonMemberSucceeds | server/src/graphql/resolvers.js:454-473 | removing a non-member succeeds, leaves the members as they were, and still notifies that user |
| Behaviour.LastAdminCanBeDemoted | server/src/graphql/resolvers.js:500-510 | the only ADMIN of a cabin, whatever MEMBERs it has, demoting itself succeeds and leaves the cabin with no admin |
| Behaviour.RoleCheckedAfterAuthorization | server/src/graphql/resolvers.js:495-503 | a caller who fails the gate gets 'Not authorized' even with an invalid role string |
| Behaviour.CabinScopedRefusesOutsiders | server/src/graphql/resolvers.js:333-336 | every cabin-scoped mutation refuses a caller who is neither a cabin ADMIN nor a GLOBAL_ADMIN |
| Behaviour.GlobalAdminPassesGate | server/src/graphql/resolvers.js:333-336 | a GLOBAL_ADMIN is never refused by the gate of a cabin-scoped mutation on an existing cabin |
| Behaviour.MarkAllNotificationsReadIdempotent | server/src/graphql/resolvers.js:561-565 | marking everything read a second time changes nothing |
| Behaviour.MarkAllThenNothingUnread | server/src/graphql/resolvers.js:88-100 | after markAllNotificationsRead, myNotifications returns only read notifications |
| Behaviour.StaleTokenPassesAdminGate | server/src/middleware/auth.js:37-40 | roles in a token are a snapshot: after removal from a cabin, a token signed before still passes isAdmin |

## Left out

- The other resolvers (`me`, `user`, `cabins`, `cabin`, `myCabins`, `register`, `updateUser`) and the field resolvers. They read documents or edit profile fields and do not touch the membership lifecycle.
- Persistence, connection setup, and failures of the database itself. The store is a value, and each resolver is one atomic step.
- Ids: every user, cabin and notification id is taken to be a well-formed ObjectId. Mongoose casts a malformed one and throws a CastError, which the resolvers rethrow. The store is unchanged either way, but the reported outcome differs from the model's: CabinNotFound, or success for `removeCabinMember`, `changeMemberRole` and `markNotificationRead`.
- Concurrency. The two writes of a dual-write mutation are modelled as one step, so other calls cannot interleave between them.
- Password hashing and comparison, which are a parameter of `Login`. Token signing, signature checking and expiry, which are the `verify` parameter.
- The `joinedAt` and `requestDate` timestamps, the document timestamps, and notification message texts. A notification is its id, kind, cabin, creation time and read flag.
- The profile fields of a user other than username, email and password hash.
- Resolvers.UpdateCabin: an explicit `null` for a field in the update is not modelled. A field is either supplied with a string or absent.
- Resolvers.NewCabinInfo: an explicit `null` image on `createCabin` is not modelled. Mongoose would store it as null rather than the default; here an image is either a string or absent.
- Resolvers.CreateCabin: the case where the cabin is inserted but the creator's `$push` then fails is not modelled. The insert and the push form one step.
- Auth.RequestToken: body and query tokens are strings or absent. Non-string values are not modelled.
- Resolvers.MyNotifications: states newest-first order and the same contents. It does not state that notifications with equal timestamps keep their stored order.
- Resolvers.FindByUsername: the order in which `findOne` searches the collection is left open. With unique usernames (`Resolvers.Login`) it does not matter.
