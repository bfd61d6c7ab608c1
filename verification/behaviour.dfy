/** What the lifecycle promises across calls: a request cannot be repeated while it is
    pending, an approved request cannot be approved again, a rejected user may ask
    again, the cabin admins are the ones invited, and the authorization check guards
    every cabin-scoped mutation. Also the consequences of following the code as
    written: removing a non-member succeeds, the last admin can be demoted, and a
    token keeps the roles it was signed with. */
module Behaviour {
  import opened Wrappers
  import opened CabinModel
  import opened UserModel
  import opened Auth
  import opened StoreModel
  import opened Resolvers
  import opened Preservation

  // ----- requestCabinMembership -----

  /** A second request by the same caller for the same cabin is refused as already
      requested, whatever the time. */
  lemma RequestTwiceRefused(s: Store, actor: Option<Payload>, c: CabinId, now: nat, later: nat)
    requires RequestCabinMembership(s, actor, c, now).Success?
    ensures RequestCabinMembership(RequestCabinMembership(s, actor, c, now).value, actor, c, later)
            == Failure(AlreadyRequested)
  {
    var t := RequestCabinMembership(s, actor, c, now).value;
    var me := actor.value.id;
    var cabin := s.cabins[c];
    assert t.cabins[c].members == cabin.members;
    assert !IsMember(t.cabins[c], me);
    assert t.cabins[c].membershipRequests[|cabin.membershipRequests|] == MembershipRequest(me, PENDING);
  }

  /** With duplicate-free membership, each ADMIN of the cabin receives exactly one
      INVITE about it and every other user none. */
  lemma RequestInvitesEachAdminOnce(s: Store, actor: Option<Payload>, c: CabinId, now: nat, w: UserId)
    requires UniqueMembership(s) && w in s.users
    requires RequestCabinMembership(s, actor, c, now).Success?
    ensures Appended(s.users[w], RequestCabinMembership(s, actor, c, now).value.users[w],
                     if IsAdmin(s.cabins[c], w) then 1 else 0, INVITE, c, now)
  {
    AdminCountUnique(s.cabins[c].members, w);
  }

  // ----- approveMembershipRequest / rejectMembershipRequest -----

  /** After an approve, `v` is a member on both sides and has no pending request; the
      request list keeps its length, and the entry that was `v`'s pending request now
      reads APPROVED at the same position. */
  lemma ApproveOutcome(s: Store, actor: Option<Payload>, c: CabinId, v: UserId, now: nat)
    requires RequestersKnown(s)
    requires ApproveMembershipRequest(s, actor, c, v, now).Success?
    ensures var t := ApproveMembershipRequest(s, actor, c, v, now).value;
      && IsMember(t.cabins[c], v)
      && IsMemberOfCabin(t.users[v], c)
      && !HasPendingRequest(t.cabins[c], v)
      && |t.cabins[c].membershipRequests| == |s.cabins[c].membershipRequests|
      && MembershipRequest(v, PENDING) in s.cabins[c].membershipRequests
      && (forall i ::
            0 <= i < |s.cabins[c].membershipRequests| && s.cabins[c].membershipRequests[i] == MembershipRequest(v, PENDING)
            ==> t.cabins[c].membershipRequests[i] == MembershipRequest(v, APPROVED))
      && MembershipRequest(v, APPROVED) in t.cabins[c].membershipRequests
  {
    var t := ApproveMembershipRequest(s, actor, c, v, now).value;
    var rs := s.cabins[c].membershipRequests;
    var rs' := ResolvePending(rs, v, APPROVED);
    assert t.cabins[c].membershipRequests == rs';
    assert !HasPendingRequest(t.cabins[c], v) by {
      ResolvePendingEffect(rs, v, APPROVED, v);
    }
    var k := IndexOf(rs, MembershipRequest(v, PENDING));
    assert rs'[k] == MembershipRequest(v, APPROVED);
    assert Member(v, MEMBER) in t.cabins[c].members;
    PendingRequesterKnown(s, c, v);
    assert t.users[v].cabins == s.users[v].cabins + [UserCabin(c, MEMBER)];
    assert UserCabin(c, MEMBER) in t.users[v].cabins;
  }

  /** After an approve, `v` has exactly one new notification, an unread APPROVAL about
      the cabin. */
  lemma ApproveNotifies(s: Store, actor: Option<Payload>, c: CabinId, v: UserId, now: nat)
    requires RequestersKnown(s)
    requires ApproveMembershipRequest(s, actor, c, v, now).Success?
    ensures var t := ApproveMembershipRequest(s, actor, c, v, now).value;
      && |t.users[v].notifications| == |s.users[v].notifications| + 1
      && Last(t.users[v].notifications).kind == APPROVAL
      && Last(t.users[v].notifications).relatedTo == c
      && !Last(t.users[v].notifications).read
  {
    PendingRequesterKnown(s, c, v);
  }

  /** A request approved once cannot be approved again: the second call finds no
      pending request (the caller stays authorized, since approving only adds a member). */
  lemma ApproveTwiceRefused(s: Store, actor: Option<Payload>, c: CabinId, v: UserId, now: nat, later: nat)
    requires ApproveMembershipRequest(s, actor, c, v, now).Success?
    ensures ApproveMembershipRequest(ApproveMembershipRequest(s, actor, c, v, now).value, actor, c, v, later)
            == Failure(RequestNotFound)
  {
    var t := ApproveMembershipRequest(s, actor, c, v, now).value;
    var cabin := s.cabins[c];
    ResolvePendingEffect(cabin.membershipRequests, v, APPROVED, v);
    assert t.cabins[c].members == cabin.members + [Member(v, MEMBER)];
    if IsAdmin(cabin, actor.value.id) {
      assert Member(actor.value.id, ADMIN) in t.cabins[c].members;
    }
    assert CabinGate(t, actor, c).None?;
  }

  /** After a reject, `v` is still not a member and has no pending request, so `v` may
      ask again; the entry that was `v`'s pending request now reads REJECTED at the same
      position. */
  lemma RejectThenRequestAgain(s: Store, actor: Option<Payload>, c: CabinId, v: UserId, now: nat,
                               p: Payload, later: nat)
    requires PendingNotMember(s) && p.id == v
    requires RejectMembershipRequest(s, actor, c, v, now).Success?
    ensures var t := RejectMembershipRequest(s, actor, c, v, now).value;
      && !IsMember(t.cabins[c], v)
      && !HasPendingRequest(t.cabins[c], v)
      && |t.cabins[c].membershipRequests| == |s.cabins[c].membershipRequests|
      && MembershipRequest(v, PENDING) in s.cabins[c].membershipRequests
      && (forall i ::
            0 <= i < |s.cabins[c].membershipRequests| && s.cabins[c].membershipRequests[i] == MembershipRequest(v, PENDING)
            ==> t.cabins[c].membershipRequests[i] == MembershipRequest(v, REJECTED))
      && MembershipRequest(v, REJECTED) in t.cabins[c].membershipRequests
      && RequestCabinMembership(t, Some(p), c, later).Success?
  {
    var t := RejectMembershipRequest(s, actor, c, v, now).value;
    var rs := s.cabins[c].membershipRequests;
    ResolvePendingEffect(rs, v, REJECTED, v);
    var k := IndexOf(rs, MembershipRequest(v, PENDING));
    assert t.cabins[c].membershipRequests[k] == MembershipRequest(v, REJECTED);
    assert t.cabins[c].members == s.cabins[c].members;
    assert !IsMember(s.cabins[c], v);
  }

  // ----- removeCabinMember / changeMemberRole -----

  /** Removing someone who is not a member is not refused: the members stay exactly as
      they were, and the user, if there is one, is still told it was removed. */
  lemma RemoveNonMemberSucceeds(s: Store, actor: Option<Payload>, c: CabinId, v: UserId, now: nat)
    requires CabinGate(s, actor, c).None? && !IsMember(s.cabins[c], v)
    ensures var r := RemoveCabinMember(s, actor, c, v, now);
      && r.Success?
      && r.value.cabins[c].members == s.cabins[c].members
      && (v in s.users ==> |r.value.users[v].notifications| == |s.users[v].notifications| + 1)
  {
    var ms := s.cabins[c].members;
    forall i | 0 <= i < |ms| ensures ms[i].userId != v {
      assert ms[i] in ms;
    }
    PullMemberAbsent(ms, v);
  }

  /** Nothing keeps a cabin from losing its last admin: when the caller is the cabin's
      only ADMIN, whatever other MEMBERs it has, demoting itself succeeds and leaves
      the cabin without admins. */
  lemma LastAdminCanBeDemoted(s: Store, p: Payload, c: CabinId, now: nat)
    requires c in s.cabins && IsAdmin(s.cabins[c], p.id)
    requires forall w :: w != p.id ==> !IsAdmin(s.cabins[c], w)
    ensures var r := ChangeMemberRole(s, Some(p), c, p.id, "MEMBER", now);
      r.Success? && forall w :: !IsAdmin(r.value.cabins[c], w)
  {
    var r := ChangeMemberRole(s, Some(p), c, p.id, "MEMBER", now);
    var ms := s.cabins[c].members;
    assert ParseCabinRole("MEMBER") == Some(MEMBER);
    assert r.value.cabins[c].members == SetMemberRole(ms, p.id, MEMBER);
    forall w ensures !IsAdmin(r.value.cabins[c], w) {
      SetMemberRoleEntries(ms, p.id, MEMBER, w, ADMIN);
      if w != p.id {
        assert !IsAdmin(s.cabins[c], w);
      }
    }
  }

  /** A wrong role string is reported only to callers who pass the authorization
      check; anyone else hears that they are not authorized. */
  lemma RoleCheckedAfterAuthorization(s: Store, p: Payload, c: CabinId, v: UserId, roleName: string, now: nat)
    requires c in s.cabins && !MayManage(s.cabins[c], p)
    ensures ChangeMemberRole(s, Some(p), c, v, roleName, now) == Failure(NotAuthorized)
  {
  }

  // ----- authorization -----

  /** Every cabin-scoped mutation refuses, before any write, a caller who is neither an
      ADMIN member of the cabin nor a global admin by token. */
  lemma CabinScopedRefusesOutsiders(s: Store, p: Payload, op: Op, now: nat)
    requires CabinScoped(op) && op.cabinId in s.cabins
    requires !IsAdmin(s.cabins[op.cabinId], p.id) && p.role != GLOBAL_ADMIN
    ensures Step(s, Some(p), op, now) == Failure(NotAuthorized)
  {
    assert CabinGate(s, Some(p), op.cabinId) == Some(NotAuthorized);
  }

  /** A global admin gets past the authorization check of every cabin-scoped mutation
      on an existing cabin; what remains are the mutation's own checks. */
  lemma GlobalAdminPassesGate(s: Store, p: Payload, op: Op, now: nat)
    requires CabinScoped(op) && op.cabinId in s.cabins && p.role == GLOBAL_ADMIN
    ensures Step(s, Some(p), op, now) != Failure(NotAuthorized)
    ensures Step(s, Some(p), op, now) != Failure(NotLoggedIn)
    ensures Step(s, Some(p), op, now) != Failure(CabinNotFound)
  {
    assert CabinGate(s, Some(p), op.cabinId).None?;
  }

  /** `users` answers a freshly signed token exactly when the user signed for is a
      global admin; the cabin roles play no part. */
  lemma ListUsersForSignedToken(s: Store, id: UserId, u: User)
    ensures ListUsers(s, Some(SignToken(id, u))).Success? <==> u.role == GLOBAL_ADMIN
  {
  }

  // ----- notifications -----

  /** Marking everything read a second time changes nothing. */
  lemma MarkAllNotificationsReadIdempotent(s: Store, actor: Option<Payload>)
    requires MarkAllNotificationsRead(s, actor).Success?
    ensures var t := MarkAllNotificationsRead(s, actor).value;
      MarkAllNotificationsRead(t, actor) == Success(t)
  {
    var t := MarkAllNotificationsRead(s, actor).value;
    var me := actor.value.id;
    if me in s.users {
      MarkAllReadIdempotent(s.users[me].notifications);
      assert MarkAllRead(t.users[me].notifications) == t.users[me].notifications;
      assert t.users[me := t.users[me].(notifications := MarkAllRead(t.users[me].notifications))] == t.users;
    }
  }

  /** After marking everything read, the caller's notification list, newest first,
      holds only read notifications. */
  lemma MarkAllThenNothingUnread(s: Store, actor: Option<Payload>)
    requires actor.Some? && actor.value.id in s.users
    ensures var t := MarkAllNotificationsRead(s, actor).value;
      forall n :: n in MyNotifications(t, actor).value ==> n.read
  {
    var t := MarkAllNotificationsRead(s, actor).value;
    var me := actor.value.id;
    var ns := t.users[me].notifications;
    forall n | n in MyNotifications(t, actor).value ensures n.read {
      assert n in multiset(MyNotifications(t, actor).value);
      assert n in multiset(ns);
      var k := IndexOf(ns, n);
    }
  }

  // ----- tokens are snapshots -----

  /** The admin middleware reads roles from the token, not the store: a token signed
      while `v` administered cabin `c` still passes after `v` is removed from `c`. */
  lemma StaleTokenPassesAdminGate(s: Store, actor: Option<Payload>, c: CabinId, v: UserId, now: nat)
    requires v in s.users && IsAdminOfCabin(s.users[v], c)
    requires RemoveCabinMember(s, actor, c, v, now).Success?
    ensures !IsAdminOfCabin(RemoveCabinMember(s, actor, c, v, now).value.users[v], c)
    ensures IsAdminMiddleware(Some(SignToken(v, s.users[v]))).Next?
  {
    AdminGateOnSignedToken(v, s.users[v]);
  }

  /** The last element of a non-empty sequence. */
  function Last<T>(xs: seq<T>): T
    requires xs != []
  {
    xs[|xs| - 1]
  }
}
