/** The GraphQL resolvers over the store. Each mutation is one atomic step: it either
    fails with the error the resolver throws, leaving the store as it was, or yields the
    store after all of its writes. `actor` is the request context's user, i.e. the token
    payload placed there by the authentication middleware; `now` is the clock reading
    stamped on new notifications. */
module Resolvers {
  import opened Wrappers
  import opened Text
  import opened CabinModel
  import opened UserModel
  import opened Auth
  import opened StoreModel

  /** The errors the resolvers throw, by message. */
  datatype Error =
    | NotLoggedIn           // AuthenticationError 'You need to be logged in!'
    | NotAuthorized         // AuthenticationError 'Not authorized'
    | CabinNotFound         // Error 'Cabin not found'
    | AlreadyMember         // UserInputError 'You are already a member of this cabin'
    | AlreadyRequested      // UserInputError 'You already have a pending request for this cabin'
    | RequestNotFound       // Error 'Membership request not found'
    | InvalidRole           // UserInputError 'Invalid role'
    | CreateCabinFailed     // Error 'Failed to create cabin'
    | ValidationFailed      // a schema validation error rethrown by updateCabin
    | IncorrectCredentials  // AuthenticationError 'Incorrect credentials'
    | FetchFailed           // Error 'Failed to fetch notifications'

  /** The cabin-scoped authorization check: an ADMIN member of the cabin in the store,
      or a global admin according to the token. */
  predicate MayManage(cabin: Cabin, actor: Payload)
  {
    IsAdmin(cabin, actor.id) || actor.role == GLOBAL_ADMIN
  }

  /** The common prologue of the cabin-scoped mutations: logged in, cabin found, then
      authorized — in that order. */
  function CabinGate(s: Store, actor: Option<Payload>, c: CabinId): (e: Option<Error>)
    ensures e.None? <==> actor.Some? && c in s.cabins && MayManage(s.cabins[c], actor.value)
    ensures actor.None? ==> e == Some(NotLoggedIn)
    ensures actor.Some? && c !in s.cabins ==> e == Some(CabinNotFound)
    ensures actor.Some? && c in s.cabins && !MayManage(s.cabins[c], actor.value) ==> e == Some(NotAuthorized)
  {
    if actor.None? then Some(NotLoggedIn)
    else if c !in s.cabins then Some(CabinNotFound)
    else if !MayManage(s.cabins[c], actor.value) then Some(NotAuthorized)
    else None
  }

  // ----- createCabin / updateCabin -----

  datatype CabinInput = CabinInput(name: string, description: string, location: string, image: Option<string>)

  /** The schema's `required` rule on a stored cabin: a name, a description and a
      location, none of them the empty string. */
  predicate RequiredFieldsPresent(info: CabinInfo)
  {
    info.name != [] && info.description != [] && info.location != []
  }

  /** The schema's `required` checks on a new cabin as Mongoose applies them: the name is
      trimmed first, and an empty string does not count as present. */
  function ValidCabinInput(input: CabinInput): (b: bool)
    ensures b <==> RequiredFieldsPresent(NewCabinInfo(input))
  {
    Trim(input.name) != [] && input.description != [] && input.location != []
  }

  /** The descriptive fields stored for a new cabin: the name trimmed, description and
      location as given, and the default image when none is supplied. */
  function NewCabinInfo(input: CabinInput): (info: CabinInfo)
    ensures exists i :: TrimmedAt(input.name, info.name, i)
    ensures info.name == [] || (!IsJsWhitespace(info.name[0]) && !IsJsWhitespace(info.name[|info.name| - 1]))
    ensures info.description == input.description && info.location == input.location
    ensures input.image.None? ==> info.image == DefaultImage
    ensures input.image.Some? ==> info.image == input.image.value
  {
    CabinInfo(Trim(input.name), input.description, input.location,
      if input.image.Some? then input.image.value else DefaultImage)
  }

  /** `createCabin`: the new cabin's only member is the creator, as ADMIN, and the
      creator's associations gain that cabin as ADMIN. `newId` is the id the driver
      generates; if it is already taken the insert fails like any other. */
  function CreateCabin(s: Store, actor: Option<Payload>, input: CabinInput, newId: CabinId): (r: Result<Store, Error>)
    ensures actor.None? ==> r == Failure(NotLoggedIn)
    ensures actor.Some? ==> (r.Success? <==> newId !in s.cabins && ValidCabinInput(input))
    ensures actor.Some? && r.Failure? ==> r.error == CreateCabinFailed
    ensures r.Success? ==>
      var me := actor.value.id;
      && r.value.cabins.Keys == s.cabins.Keys + {newId}
      && r.value.cabins[newId].members == [Member(me, ADMIN)]
      && r.value.cabins[newId].membershipRequests == []
      && r.value.cabins[newId].createdBy == me
      && r.value.cabins[newId].info == NewCabinInfo(input)
      && RequiredFieldsPresent(r.value.cabins[newId].info)
      && (forall d :: d in s.cabins ==> r.value.cabins[d] == s.cabins[d])
      && r.value.users.Keys == s.users.Keys
      && (forall w :: w in s.users && w != me ==> r.value.users[w] == s.users[w])
      && (me in s.users ==>
            r.value.users[me] == s.users[me].(cabins := s.users[me].cabins + [UserCabin(newId, ADMIN)]))
  {
    if actor.None? then Failure(NotLoggedIn)
    else if newId in s.cabins || !ValidCabinInput(input) then Failure(CreateCabinFailed)
    else
      var me := actor.value.id;
      var cabin := Cabin(NewCabinInfo(input), me, [Member(me, ADMIN)], []);
      var s1 := s.(cabins := s.cabins[newId := cabin]);
      Success(AddAssociation(s1, me, UserCabin(newId, ADMIN)))
  }

  datatype CabinUpdate = CabinUpdate(name: Option<string>, description: Option<string>, location: Option<string>, image: Option<string>)

  /** Update validators (`runValidators`): a required field that is set must not end up
      empty. On a cabin that has its required fields, the update passes exactly when the
      updated cabin still has them. */
  function ValidCabinUpdate(u: CabinUpdate): (b: bool)
    ensures forall info :: RequiredFieldsPresent(info) ==> (b <==> RequiredFieldsPresent(ApplyCabinUpdate(info, u)))
  {
    && (u.name.Some? ==> Trim(u.name.value) != [])
    && (u.description.Some? ==> u.description.value != [])
    && (u.location.Some? ==> u.location.value != [])
  }

  /** `$set: updates`: each supplied field replaces the stored one (the name trimmed),
      and each absent field keeps its stored value. */
  function ApplyCabinUpdate(info: CabinInfo, u: CabinUpdate): (r: CabinInfo)
    ensures u.name.Some? ==> r.name == Trim(u.name.value)
    ensures u.name.None? ==> r.name == info.name
    ensures u.description.Some? ==> r.description == u.description.value
    ensures u.description.None? ==> r.description == info.description
    ensures u.location.Some? ==> r.location == u.location.value
    ensures u.location.None? ==> r.location == info.location
    ensures u.image.Some? ==> r.image == u.image.value
    ensures u.image.None? ==> r.image == info.image
  {
    CabinInfo(
      if u.name.Some? then Trim(u.name.value) else info.name,
      if u.description.Some? then u.description.value else info.description,
      if u.location.Some? then u.location.value else info.location,
      if u.image.Some? then u.image.value else info.image)
  }

  /** `updateCabin`: only the descriptive fields of that cabin change; its members and
      requests, the other cabins and all users are untouched. */
  function UpdateCabin(s: Store, actor: Option<Payload>, c: CabinId, u: CabinUpdate): (r: Result<Store, Error>)
    ensures CabinGate(s, actor, c).Some? ==> r == Failure(CabinGate(s, actor, c).value)
    ensures CabinGate(s, actor, c).None? ==> (r.Success? <==> ValidCabinUpdate(u))
    ensures r.Failure? && CabinGate(s, actor, c).None? ==> r.error == ValidationFailed
    ensures r.Success? ==>
      && r.value.users == s.users
      && r.value.cabins.Keys == s.cabins.Keys
      && (forall d :: d in s.cabins && d != c ==> r.value.cabins[d] == s.cabins[d])
      && r.value.cabins[c].members == s.cabins[c].members
      && r.value.cabins[c].membershipRequests == s.cabins[c].membershipRequests
      && r.value.cabins[c].createdBy == s.cabins[c].createdBy
      && r.value.cabins[c].info == ApplyCabinUpdate(s.cabins[c].info, u)
  {
    var gate := CabinGate(s, actor, c);
    if gate.Some? then Failure(gate.value)
    else if !ValidCabinUpdate(u) then Failure(ValidationFailed)
    else
      var cabin := s.cabins[c];
      Success(s.(cabins := s.cabins[c := cabin.(info := ApplyCabinUpdate(cabin.info, u))]))
  }

  // ----- deleteCabin -----

  /** `deleteCabin`: the cabin is gone and no user keeps an association with it. */
  function DeleteCabin(s: Store, actor: Option<Payload>, c: CabinId): (r: Result<Store, Error>)
    ensures CabinGate(s, actor, c).Some? ==> r == Failure(CabinGate(s, actor, c).value)
    ensures CabinGate(s, actor, c).None? ==> r.Success?
    ensures r.Success? ==>
      && r.value.cabins == s.cabins - {c}
      && r.value.users.Keys == s.users.Keys
      && (forall w :: w in s.users ==> !IsMemberOfCabin(r.value.users[w], c))
      && (forall w, uc :: w in s.users ==> (uc in r.value.users[w].cabins <==> uc in s.users[w].cabins && uc.cabinId != c))
      && (forall w :: w in s.users ==> r.value.users[w].notifications == s.users[w].notifications)
      && (forall w :: w in s.users ==> r.value.users[w] == s.users[w].(cabins := PullCabin(s.users[w].cabins, c)))
  {
    var gate := CabinGate(s, actor, c);
    if gate.Some? then Failure(gate.value)
    else Success(Store(PullCabinFromAll(s.users, c), s.cabins - {c}, s.nextNotificationId))
  }

  // ----- requestCabinMembership -----

  /** `requestCabinMembership`: refused to a member and to a user with a pending request;
      otherwise exactly one PENDING request is appended, nothing else in the cabin
      changes, and every ADMIN entry of the cabin (as it was before the call) earns
      its user one unread INVITE notification about this cabin. */
  function RequestCabinMembership(s: Store, actor: Option<Payload>, c: CabinId, now: nat): (r: Result<Store, Error>)
    ensures actor.None? ==> r == Failure(NotLoggedIn)
    ensures actor.Some? && c !in s.cabins ==> r == Failure(CabinNotFound)
    ensures actor.Some? && c in s.cabins && IsMember(s.cabins[c], actor.value.id) ==> r == Failure(AlreadyMember)
    ensures actor.Some? && c in s.cabins && !IsMember(s.cabins[c], actor.value.id)
      ==> (r.Success? <==> !HasPendingRequest(s.cabins[c], actor.value.id))
    ensures actor.Some? && c in s.cabins && !IsMember(s.cabins[c], actor.value.id) && r.Failure?
      ==> r.error == AlreadyRequested
    ensures r.Success? ==>
      var me := actor.value.id;
      var cabin := s.cabins[c];
      && r.value.cabins.Keys == s.cabins.Keys
      && (forall d :: d in s.cabins && d != c ==> r.value.cabins[d] == s.cabins[d])
      && r.value.cabins[c] == cabin.(membershipRequests := cabin.membershipRequests + [MembershipRequest(me, PENDING)])
      && r.value.users.Keys == s.users.Keys
      && (forall w :: w in s.users ==>
            Appended(s.users[w], r.value.users[w], CountAdminEntries(cabin.members, w), INVITE, c, now))
  {
    if actor.None? then Failure(NotLoggedIn)
    else if c !in s.cabins then Failure(CabinNotFound)
    else
      var me := actor.value.id;
      var cabin := s.cabins[c];
      if IsMember(cabin, me) then Failure(AlreadyMember)
      else if HasPendingRequest(cabin, me) then Failure(AlreadyRequested)
      else
        var cabin' := cabin.(membershipRequests := cabin.membershipRequests + [MembershipRequest(me, PENDING)]);
        var s1 := s.(cabins := s.cabins[c := cabin']);
        Success(NotifyEach(s1, AdminIds(cabin.members), INVITE, c, now))
  }

  // ----- approveMembershipRequest / rejectMembershipRequest -----

  /** `approveMembershipRequest`: without a PENDING request of `v` it fails; otherwise
      that request becomes APPROVED and stays, a MEMBER edge is added on both sides,
      and `v` gets one APPROVAL notification. */
  function ApproveMembershipRequest(s: Store, actor: Option<Payload>, c: CabinId, v: UserId, now: nat): (r: Result<Store, Error>)
    ensures CabinGate(s, actor, c).Some? ==> r == Failure(CabinGate(s, actor, c).value)
    ensures CabinGate(s, actor, c).None? ==>
      (r.Success? <==> HasPendingRequest(s.cabins[c], v)) && (r.Failure? ==> r.error == RequestNotFound)
    ensures r.Success? ==>
      var cabin := s.cabins[c];
      && r.value.cabins.Keys == s.cabins.Keys
      && (forall d :: d in s.cabins && d != c ==> r.value.cabins[d] == s.cabins[d])
      && r.value.cabins[c] == cabin.(
           members := cabin.members + [Member(v, MEMBER)],
           membershipRequests := ResolvePending(cabin.membershipRequests, v, APPROVED))
      && r.value.users.Keys == s.users.Keys
      && (forall w :: w in s.users && w != v ==> r.value.users[w] == s.users[w])
      && (v in s.users ==>
            Appended(s.users[v].(cabins := s.users[v].cabins + [UserCabin(c, MEMBER)]),
                     r.value.users[v], 1, APPROVAL, c, now))
  {
    var gate := CabinGate(s, actor, c);
    if gate.Some? then Failure(gate.value)
    else
      var cabin := s.cabins[c];
      if !HasPendingRequest(cabin, v) then Failure(RequestNotFound)
      else
        var cabin' := cabin.(
          members := cabin.members + [Member(v, MEMBER)],
          membershipRequests := ResolvePending(cabin.membershipRequests, v, APPROVED));
        var s1 := s.(cabins := s.cabins[c := cabin']);
        var s2 := AddAssociation(s1, v, UserCabin(c, MEMBER));
        Success(Notify(s2, v, APPROVAL, c, now))
  }

  /** `rejectMembershipRequest`: without a PENDING request of `v` it fails; otherwise
      that request becomes REJECTED, no edge is added, and `v` gets one APPROVAL-type
      notification. */
  function RejectMembershipRequest(s: Store, actor: Option<Payload>, c: CabinId, v: UserId, now: nat): (r: Result<Store, Error>)
    ensures CabinGate(s, actor, c).Some? ==> r == Failure(CabinGate(s, actor, c).value)
    ensures CabinGate(s, actor, c).None? ==>
      (r.Success? <==> HasPendingRequest(s.cabins[c], v)) && (r.Failure? ==> r.error == RequestNotFound)
    ensures r.Success? ==>
      var cabin := s.cabins[c];
      && r.value.cabins.Keys == s.cabins.Keys
      && (forall d :: d in s.cabins && d != c ==> r.value.cabins[d] == s.cabins[d])
      && r.value.cabins[c] == cabin.(membershipRequests := ResolvePending(cabin.membershipRequests, v, REJECTED))
      && r.value.users.Keys == s.users.Keys
      && (forall w :: w in s.users ==> Appended(s.users[w], r.value.users[w], if w == v then 1 else 0, APPROVAL, c, now))
  {
    var gate := CabinGate(s, actor, c);
    if gate.Some? then Failure(gate.value)
    else
      var cabin := s.cabins[c];
      if !HasPendingRequest(cabin, v) then Failure(RequestNotFound)
      else
        var cabin' := cabin.(membershipRequests := ResolvePending(cabin.membershipRequests, v, REJECTED));
        var s1 := s.(cabins := s.cabins[c := cabin']);
        Success(Notify(s1, v, APPROVAL, c, now))
  }

  // ----- removeCabinMember -----

  /** `removeCabinMember`: there is no check that `v` is a member. Every entry of `v`
      leaves the cabin's members, every association with the cabin leaves `v`'s list,
      `v` gets one SYSTEM notification, and the requests are untouched. */
  function RemoveCabinMember(s: Store, actor: Option<Payload>, c: CabinId, v: UserId, now: nat): (r: Result<Store, Error>)
    ensures CabinGate(s, actor, c).Some? ==> r == Failure(CabinGate(s, actor, c).value)
    ensures CabinGate(s, actor, c).None? ==> r.Success?
    ensures r.Success? ==>
      var cabin := s.cabins[c];
      && r.value.cabins.Keys == s.cabins.Keys
      && (forall d :: d in s.cabins && d != c ==> r.value.cabins[d] == s.cabins[d])
      && !IsMember(r.value.cabins[c], v)
      && (forall m :: m in r.value.cabins[c].members <==> m in cabin.members && m.userId != v)
      && r.value.cabins[c].membershipRequests == cabin.membershipRequests
      && r.value.cabins[c].info == cabin.info
      && r.value.cabins[c] == cabin.(members := PullMember(cabin.members, v))
      && r.value.users.Keys == s.users.Keys
      && (forall w :: w in s.users && w != v ==> r.value.users[w] == s.users[w])
      && (v in s.users ==>
            && !IsMemberOfCabin(r.value.users[v], c)
            && Appended(s.users[v].(cabins := PullCabin(s.users[v].cabins, c)), r.value.users[v], 1, SYSTEM, c, now))
  {
    var gate := CabinGate(s, actor, c);
    if gate.Some? then Failure(gate.value)
    else
      var cabin := s.cabins[c];
      var s1 := s.(cabins := s.cabins[c := cabin.(members := PullMember(cabin.members, v))]);
      var s2 := PullAssociation(s1, v, c);
      Success(Notify(s2, v, SYSTEM, c, now))
  }

  // ----- changeMemberRole -----

  /** `changeMemberRole`: the role string is checked only after authorization; the same
      role is then written to `v`'s entries on both sides, every other member is left
      alone, `v` gets one SYSTEM notification, and nothing stops the cabin from losing
      its last admin. */
  function ChangeMemberRole(s: Store, actor: Option<Payload>, c: CabinId, v: UserId, roleName: string, now: nat): (r: Result<Store, Error>)
    ensures CabinGate(s, actor, c).Some? ==> r == Failure(CabinGate(s, actor, c).value)
    ensures CabinGate(s, actor, c).None? ==>
      (r.Success? <==> roleName == "ADMIN" || roleName == "MEMBER") && (r.Failure? ==> r.error == InvalidRole)
    ensures r.Success? ==>
      var cabin := s.cabins[c];
      var role := ParseCabinRole(roleName).value;
      && r.value.cabins.Keys == s.cabins.Keys
      && (forall d :: d in s.cabins && d != c ==> r.value.cabins[d] == s.cabins[d])
      && r.value.cabins[c] == cabin.(members := SetMemberRole(cabin.members, v, role))
      && r.value.users.Keys == s.users.Keys
      && (forall w :: w in s.users && w != v ==> r.value.users[w] == s.users[w])
      && (v in s.users ==>
            Appended(s.users[v].(cabins := SetCabinRole(s.users[v].cabins, c, role)), r.value.users[v], 1, SYSTEM, c, now))
  {
    var gate := CabinGate(s, actor, c);
    if gate.Some? then Failure(gate.value)
    else
      match ParseCabinRole(roleName)
      case None => Failure(InvalidRole)
      case Some(role) =>
        var cabin := s.cabins[c];
        var s1 := s.(cabins := s.cabins[c := cabin.(members := SetMemberRole(cabin.members, v, role))]);
        var s2 := SetAssociationRole(s1, v, c, role);
        Success(Notify(s2, v, SYSTEM, c, now))
  }

  // ----- notifications -----

  /** `markNotificationRead`: on the caller's own notifications, those with that id
      become read and every other one is left as it was. A caller missing from the
      store, or an id that matches nothing, still succeeds. */
  function MarkNotificationRead(s: Store, actor: Option<Payload>, id: nat): (r: Result<Store, Error>)
    ensures actor.None? <==> r == Failure(NotLoggedIn)
    ensures actor.Some? ==> r.Success?
    ensures r.Success? ==>
      var me := actor.value.id;
      && r.value.cabins == s.cabins
      && r.value.users.Keys == s.users.Keys
      && (forall w :: w in s.users && w != me ==> r.value.users[w] == s.users[w])
      && (me in s.users ==>
            var before := s.users[me].notifications;
            var after := r.value.users[me].notifications;
            && r.value.users[me] == s.users[me].(notifications := after)
            && |after| == |before|
            && (forall i :: 0 <= i < |before| && before[i].id == id ==> after[i] == before[i].(read := true))
            && (forall i :: 0 <= i < |before| && before[i].id != id ==> after[i] == before[i]))
  {
    if actor.None? then Failure(NotLoggedIn)
    else
      var me := actor.value.id;
      if me !in s.users then Success(s)
      else
        var u := s.users[me];
        Success(s.(users := s.users[me := u.(notifications := MarkRead(u.notifications, id))]))
  }

  /** `markAllNotificationsRead`: every notification of the caller becomes read, nothing
      else about them changes. */
  function MarkAllNotificationsRead(s: Store, actor: Option<Payload>): (r: Result<Store, Error>)
    ensures actor.None? <==> r == Failure(NotLoggedIn)
    ensures actor.Some? ==> r.Success?
    ensures r.Success? ==>
      var me := actor.value.id;
      && r.value.cabins == s.cabins
      && r.value.users.Keys == s.users.Keys
      && (forall w :: w in s.users && w != me ==> r.value.users[w] == s.users[w])
      && (me in s.users ==>
            var before := s.users[me].notifications;
            var after := r.value.users[me].notifications;
            && r.value.users[me] == s.users[me].(notifications := after)
            && |after| == |before|
            && (forall i :: 0 <= i < |before| ==> after[i] == before[i].(read := true)))
  {
    if actor.None? then Failure(NotLoggedIn)
    else
      var me := actor.value.id;
      if me !in s.users then Success(s)
      else
        var u := s.users[me];
        Success(s.(users := s.users[me := u.(notifications := MarkAllRead(u.notifications))]))
  }

  // ----- queries -----

  /** `users`: only a global admin (by token) may list the users; anyone else, logged
      in or not, is refused with 'Not authorized'. */
  function ListUsers(s: Store, actor: Option<Payload>): (r: Result<map<UserId, User>, Error>)
    ensures r.Success? <==> actor.Some? && actor.value.role == GLOBAL_ADMIN
    ensures r.Failure? ==> r.error == NotAuthorized
    ensures r.Success? ==> r.value == s.users
  {
    if actor.None? || actor.value.role != GLOBAL_ADMIN then Failure(NotAuthorized)
    else Success(s.users)
  }

  /** `myNotifications`: the caller's notifications, newest first. A caller whose user
      document is gone makes the resolver fail. */
  function MyNotifications(s: Store, actor: Option<Payload>): (r: Result<seq<Notification>, Error>)
    ensures actor.None? ==> r == Failure(NotLoggedIn)
    ensures actor.Some? ==> (r.Success? <==> actor.value.id in s.users)
    ensures actor.Some? && r.Failure? ==> r.error == FetchFailed
    ensures r.Success? ==>
      && NewestFirst(r.value)
      && multiset(r.value) == multiset(s.users[actor.value.id].notifications)
  {
    if actor.None? then Failure(NotLoggedIn)
    else if actor.value.id !in s.users then Failure(FetchFailed)
    else Success(SortNewestFirst(s.users[actor.value.id].notifications))
  }

  /** The user `findOne({ username })` returns, if any. The schema's `trim` setter on
      `username` applies to the query filter too, so the name is trimmed before the
      comparison. The order in which the collection is searched is left open. */
  method FindByUsername(s: Store, name: string) returns (found: Option<UserId>)
    ensures found.Some? ==> found.value in s.users && s.users[found.value].username == Trim(name)
    ensures found.None? ==> forall id :: id in s.users ==> s.users[id].username != Trim(name)
  {
    var key := Trim(name);
    var left := s.users.Keys;
    found := None;
    while left != {}
      invariant left <= s.users.Keys
      invariant forall id :: id in s.users && id !in left ==> s.users[id].username != key
      decreases left
    {
      var id :| id in left;
      if s.users[id].username == key {
        return Some(id);
      }
      left := left - {id};
    }
  }

  /** Usernames are unique (the collection's unique index). */
  ghost predicate UniqueUsernames(s: Store)
  {
    forall a, b :: a in s.users && b in s.users && s.users[a].username == s.users[b].username ==> a == b
  }

  /** `login`: an unknown username (after trimming) and a wrong password fail alike;
      otherwise the answer is the payload signed for that user. `passwordMatches(plain, hash)` stands
      for the password-hash comparison. */
  method Login(s: Store, name: string, password: string, passwordMatches: (string, string) -> bool)
    returns (r: Result<Payload, Error>)
    ensures r.Failure? ==> r.error == IncorrectCredentials
    ensures r.Success? ==>
      (exists id :: id in s.users && s.users[id].username == Trim(name)
        && passwordMatches(password, s.users[id].passwordHash) && r.value == SignToken(id, s.users[id]))
    ensures UniqueUsernames(s) ==> (r.Success? <==>
      exists id :: id in s.users && s.users[id].username == Trim(name) && passwordMatches(password, s.users[id].passwordHash))
  {
    var found := FindByUsername(s, name);
    if found.None? {
      return Failure(IncorrectCredentials);
    }
    var id := found.value;
    var u := s.users[id];
    if !passwordMatches(password, u.passwordHash) {
      return Failure(IncorrectCredentials);
    }
    return Success(SignToken(id, u));
  }

  // ----- every mutation as one step -----

  datatype Op =
    | CreateCabinOp(input: CabinInput, newId: CabinId)
    | UpdateCabinOp(cabinId: CabinId, update: CabinUpdate)
    | DeleteCabinOp(cabinId: CabinId)
    | RequestMembershipOp(cabinId: CabinId)
    | ApproveRequestOp(cabinId: CabinId, userId: UserId)
    | RejectRequestOp(cabinId: CabinId, userId: UserId)
    | RemoveMemberOp(cabinId: CabinId, userId: UserId)
    | ChangeRoleOp(cabinId: CabinId, userId: UserId, role: string)
    | MarkNotificationReadOp(notificationId: nat)
    | MarkAllNotificationsReadOp

  /** The mutations guarded by the cabin-scoped authorization check. */
  predicate CabinScoped(op: Op)
  {
    op.UpdateCabinOp? || op.DeleteCabinOp? || op.ApproveRequestOp? || op.RejectRequestOp?
    || op.RemoveMemberOp? || op.ChangeRoleOp?
  }

  /** The mutation resolver for `op`, run by `actor` at time `now`. */
  function Step(s: Store, actor: Option<Payload>, op: Op, now: nat): (r: Result<Store, Error>)
    ensures r.Success? ==> r.value.users.Keys == s.users.Keys
    ensures actor.None? ==> r == Failure(NotLoggedIn)
  {
    match op
    case CreateCabinOp(input, newId) => CreateCabin(s, actor, input, newId)
    case UpdateCabinOp(c, u) => UpdateCabin(s, actor, c, u)
    case DeleteCabinOp(c) => DeleteCabin(s, actor, c)
    case RequestMembershipOp(c) => RequestCabinMembership(s, actor, c, now)
    case ApproveRequestOp(c, v) => ApproveMembershipRequest(s, actor, c, v, now)
    case RejectRequestOp(c, v) => RejectMembershipRequest(s, actor, c, v, now)
    case RemoveMemberOp(c, v) => RemoveCabinMember(s, actor, c, v, now)
    case ChangeRoleOp(c, v, role) => ChangeMemberRole(s, actor, c, v, role, now)
    case MarkNotificationReadOp(id) => MarkNotificationRead(s, actor, id)
    case MarkAllNotificationsReadOp => MarkAllNotificationsRead(s, actor)
  }

  /** One call: who made it, which mutation, and the clock reading. */
  datatype Call = Call(actor: Option<Payload>, op: Op, now: nat)

  /** A sequence of calls, one after another; a call that fails leaves the store as it was. */
  function Run(s: Store, calls: seq<Call>): (r: Store)
    ensures r.users.Keys == s.users.Keys
    decreases |calls|
  {
    if calls == [] then s
    else
      var next := Step(s, calls[0].actor, calls[0].op, calls[0].now);
      Run(if next.Success? then next.value else s, calls[1..])
  }
}
