/** Every mutation keeps the store invariants: the two sides of each membership edge
    agree, members and associations are duplicate-free, each user has at most one
    pending request per cabin, pending requesters are not members, and requesters are
    users. Each proof works edge by edge: it says which (user, cabin, role) edges the
    step adds or removes on either side, and symmetry follows. */
module Preservation {
  import opened Wrappers
  import opened CabinModel
  import opened UserModel
  import opened Auth
  import opened StoreModel
  import opened Resolvers

  /** The caller's id names a user of the store. Tokens are only signed for stored
      users and no resolver deletes users, so this holds for every session. */
  ghost predicate KnownCaller(s: Store, actor: Option<Payload>)
  {
    actor.Some? ==> actor.value.id in s.users
  }

  /** A store that gains cabin `newId` with the single ADMIN member `me`, and nothing
      else on the cabin side, gains exactly that cabin-side edge. */
  lemma AddedCabinEdge(s: Store, t: Store, me: UserId, newId: CabinId, u: UserId, c: CabinId, role: CabinRole)
    requires t.cabins.Keys == s.cabins.Keys + {newId} && newId !in s.cabins
    requires t.cabins[newId].members == [Member(me, ADMIN)]
    requires forall d :: d in s.cabins ==> t.cabins[d] == s.cabins[d]
    ensures CabinEdge(t, u, c, role) <==> CabinEdge(s, u, c, role) || (u == me && c == newId && role == ADMIN)
  {
    if c == newId {
      assert Member(u, role) in t.cabins[c].members <==> Member(u, role) == Member(me, ADMIN);
    } else if c in s.cabins {
      assert t.cabins[c] == s.cabins[c];
    }
  }

  /** A store whose user `me` gains the association (newId, ADMIN), and nothing else on
      the user side, gains exactly that user-side edge. */
  lemma AddedUserEdge(s: Store, t: Store, me: UserId, newId: CabinId, u: UserId, c: CabinId, role: CabinRole)
    requires t.users.Keys == s.users.Keys && me in s.users
    requires t.users[me].cabins == s.users[me].cabins + [UserCabin(newId, ADMIN)]
    requires forall w :: w in s.users && w != me ==> t.users[w] == s.users[w]
    ensures UserEdge(t, u, c, role) <==> UserEdge(s, u, c, role) || (u == me && c == newId && role == ADMIN)
  {
    if u == me {
      assert UserCabin(c, role) in t.users[me].cabins <==>
        UserCabin(c, role) in s.users[me].cabins || UserCabin(c, role) == UserCabin(newId, ADMIN);
    } else if u in s.users {
      assert t.users[u] == s.users[u];
    }
  }

  /** createCabin adds exactly the edge (creator, new cabin, ADMIN), on both sides. */
  lemma CreateCabinEdge(s: Store, actor: Option<Payload>, input: CabinInput, newId: CabinId, u: UserId, c: CabinId, role: CabinRole)
    requires KnownCaller(s, actor) && CreateCabin(s, actor, input, newId).Success?
    ensures CabinEdge(CreateCabin(s, actor, input, newId).value, u, c, role)
      <==> CabinEdge(s, u, c, role) || (u == actor.value.id && c == newId && role == ADMIN)
    ensures UserEdge(CreateCabin(s, actor, input, newId).value, u, c, role)
      <==> UserEdge(s, u, c, role) || (u == actor.value.id && c == newId && role == ADMIN)
  {
    var t := CreateCabin(s, actor, input, newId).value;
    AddedCabinEdge(s, t, actor.value.id, newId, u, c, role);
    AddedUserEdge(s, t, actor.value.id, newId, u, c, role);
  }

  lemma CreateCabinSymmetric(s: Store, actor: Option<Payload>, input: CabinInput, newId: CabinId)
    requires Symmetric(s) && KnownCaller(s, actor)
    ensures var r := CreateCabin(s, actor, input, newId); r.Success? ==> Symmetric(r.value)
  {
    var r := CreateCabin(s, actor, input, newId);
    if r.Success? {
      forall u, c, role ensures CabinEdge(r.value, u, c, role) <==> UserEdge(r.value, u, c, role) {
        CreateCabinEdge(s, actor, input, newId, u, c, role);
        assert CabinEdge(s, u, c, role) <==> UserEdge(s, u, c, role);
      }
    }
  }

  /** createCabin keeps members and associations duplicate-free: the new cabin has one
      member, and the creator had no association with a cabin id that was not yet taken. */
  lemma CreateCabinUnique(s: Store, actor: Option<Payload>, input: CabinInput, newId: CabinId)
    requires Symmetric(s) && UniqueMembership(s) && UniqueAssociations(s) && KnownCaller(s, actor)
    ensures var r := CreateCabin(s, actor, input, newId);
      r.Success? ==> UniqueMembership(r.value) && UniqueAssociations(r.value)
  {
    var r := CreateCabin(s, actor, input, newId);
    if r.Success? {
      var t := r.value;
      var me := actor.value.id;
      var ucs := s.users[me].cabins;
      forall i | 0 <= i < |ucs| ensures ucs[i].cabinId != newId {
        assert UserEdge(s, me, ucs[i].cabinId, ucs[i].role);
      }
      UniqueCabinsAppend(ucs, UserCabin(newId, ADMIN));
    }
  }

  /** A store that gains one cabin without requests, keeps every other cabin and the
      set of users, keeps the request invariants. */
  lemma AddedCabinRequests(s: Store, t: Store, newId: CabinId)
    requires t.cabins.Keys == s.cabins.Keys + {newId} && t.users.Keys == s.users.Keys
    requires t.cabins[newId].membershipRequests == []
    requires forall d :: d in s.cabins && d != newId ==> t.cabins[d] == s.cabins[d]
    requires SinglePending(s) && PendingNotMember(s) && RequestersKnown(s)
    ensures SinglePending(t) && PendingNotMember(t) && RequestersKnown(t)
  {
    forall d | d in t.cabins
      ensures AtMostOnePending(t.cabins[d].membershipRequests) && PendingExcludesMember(t.cabins[d])
    {
      if d == newId {
        forall u ensures !HasPendingRequest(t.cabins[d], u) {
          assert MembershipRequest(u, PENDING) !in t.cabins[d].membershipRequests;
        }
      }
    }
  }

  /** createCabin adds a cabin without requests, so the request invariants carry over. */
  lemma CreateCabinRequests(s: Store, actor: Option<Payload>, input: CabinInput, newId: CabinId)
    requires SinglePending(s) && PendingNotMember(s) && RequestersKnown(s)
    ensures var r := CreateCabin(s, actor, input, newId);
      r.Success? ==> SinglePending(r.value) && PendingNotMember(r.value) && RequestersKnown(r.value)
  {
    var r := CreateCabin(s, actor, input, newId);
    if r.Success? {
      AddedCabinRequests(s, r.value, newId);
    }
  }

  lemma CreateCabinValid(s: Store, actor: Option<Payload>, input: CabinInput, newId: CabinId)
    requires Valid(s) && KnownCaller(s, actor)
    ensures var r := CreateCabin(s, actor, input, newId); r.Success? ==> Valid(r.value)
  {
    CreateCabinSymmetric(s, actor, input, newId);
    CreateCabinUnique(s, actor, input, newId);
    CreateCabinRequests(s, actor, input, newId);
  }

  // ----- approveMembershipRequest -----

  /** Whoever holds a pending request is a user of the store. */
  lemma PendingRequesterKnown(s: Store, c: CabinId, v: UserId)
    requires RequestersKnown(s) && c in s.cabins && HasPendingRequest(s.cabins[c], v)
    ensures v in s.users
  {
    var k := IndexOf(s.cabins[c].membershipRequests, MembershipRequest(v, PENDING));
    assert s.cabins[c].membershipRequests[k].userId == v;
  }

  /** approve adds exactly the MEMBER edge (v, c) on each side. */
  lemma ApproveEdge(s: Store, actor: Option<Payload>, c: CabinId, v: UserId, now: nat, u: UserId, d: CabinId, role: CabinRole)
    requires RequestersKnown(s) && ApproveMembershipRequest(s, actor, c, v, now).Success?
    ensures var t := ApproveMembershipRequest(s, actor, c, v, now).value;
      && (CabinEdge(t, u, d, role) <==> CabinEdge(s, u, d, role) || (u == v && d == c && role == MEMBER))
      && (UserEdge(t, u, d, role) <==> UserEdge(s, u, d, role) || (u == v && d == c && role == MEMBER))
  {
    var t := ApproveMembershipRequest(s, actor, c, v, now).value;
    PendingRequesterKnown(s, c, v);
    if d == c {
      assert t.cabins[c].members == s.cabins[c].members + [Member(v, MEMBER)];
    } else {
      assert CabinEdge(t, u, d, role) <==> CabinEdge(s, u, d, role);
    }
    if u == v {
      assert t.users[v].cabins == s.users[v].cabins + [UserCabin(c, MEMBER)];
    } else {
      assert UserEdge(t, u, d, role) <==> UserEdge(s, u, d, role);
    }
  }

  lemma ApproveSymmetric(s: Store, actor: Option<Payload>, c: CabinId, v: UserId, now: nat)
    requires Symmetric(s) && RequestersKnown(s)
    ensures var r := ApproveMembershipRequest(s, actor, c, v, now); r.Success? ==> Symmetric(r.value)
  {
    var r := ApproveMembershipRequest(s, actor, c, v, now);
    if r.Success? {
      forall u, d, role ensures CabinEdge(r.value, u, d, role) <==> UserEdge(r.value, u, d, role) {
        ApproveEdge(s, actor, c, v, now, u, d, role);
        assert CabinEdge(s, u, d, role) <==> UserEdge(s, u, d, role);
      }
    }
  }

  /** approve adds `v` to a cabin it was not in (its request was pending), on both sides. */
  lemma ApproveUnique(s: Store, actor: Option<Payload>, c: CabinId, v: UserId, now: nat)
    requires Symmetric(s) && UniqueMembership(s) && UniqueAssociations(s) && PendingNotMember(s) && RequestersKnown(s)
    ensures var r := ApproveMembershipRequest(s, actor, c, v, now);
      r.Success? ==> UniqueMembership(r.value) && UniqueAssociations(r.value)
  {
    var r := ApproveMembershipRequest(s, actor, c, v, now);
    if r.Success? {
      var t := r.value;
      var cabin := s.cabins[c];
      PendingRequesterKnown(s, c, v);
      assert !IsMember(cabin, v);
      MemberBothSides(s, v, c);
      UniqueMembersAppend(cabin.members, Member(v, MEMBER));
      assert t.users[v].cabins == s.users[v].cabins + [UserCabin(c, MEMBER)];
      UniqueCabinsAppend(s.users[v].cabins, UserCabin(c, MEMBER));
    }
  }

  /** approve resolves `v`'s pending request; nobody else's request changes. */
  lemma ApproveSinglePending(s: Store, actor: Option<Payload>, c: CabinId, v: UserId, now: nat)
    requires SinglePending(s)
    ensures var r := ApproveMembershipRequest(s, actor, c, v, now);
      r.Success? ==> SinglePending(r.value)
  {
    var r := ApproveMembershipRequest(s, actor, c, v, now);
    if r.Success? {
      var cabin := s.cabins[c];
      var rs := ResolvePending(cabin.membershipRequests, v, APPROVED);
      assert r.value.cabins[c].membershipRequests == rs;
      assert AtMostOnePending(rs) by {
        ResolvePendingEffect(cabin.membershipRequests, v, APPROVED, v);
      }
    }
  }

  /** Approving rewrites only statuses, so every requester is still a known user. */
  lemma ApproveRequestersKnown(s: Store, actor: Option<Payload>, c: CabinId, v: UserId, now: nat)
    requires RequestersKnown(s)
    ensures var r := ApproveMembershipRequest(s, actor, c, v, now);
      r.Success? ==> RequestersKnown(r.value)
  {
    var r := ApproveMembershipRequest(s, actor, c, v, now);
    if r.Success? {
      var cabin := s.cabins[c];
      var rs := ResolvePending(cabin.membershipRequests, v, APPROVED);
      assert r.value.cabins[c].membershipRequests == rs;
      assert forall i :: 0 <= i < |rs| ==> rs[i].userId == cabin.membershipRequests[i].userId;
    }
  }

  /** After approve, `v` is a member without a pending request, and every other user
      with a pending request was pending, hence not a member, before. */
  lemma ApprovePendingNotMember(s: Store, actor: Option<Payload>, c: CabinId, v: UserId, now: nat)
    requires PendingNotMember(s)
    ensures var r := ApproveMembershipRequest(s, actor, c, v, now);
      r.Success? ==> PendingNotMember(r.value)
  {
    var r := ApproveMembershipRequest(s, actor, c, v, now);
    if r.Success? {
      var t := r.value;
      var cabin := s.cabins[c];
      assert t.cabins[c].membershipRequests == ResolvePending(cabin.membershipRequests, v, APPROVED);
      assert t.cabins[c].members == cabin.members + [Member(v, MEMBER)];
      ApprovedExcludes(cabin, v);
    }
  }

  lemma ApproveValid(s: Store, actor: Option<Payload>, c: CabinId, v: UserId, now: nat)
    requires Valid(s)
    ensures var r := ApproveMembershipRequest(s, actor, c, v, now); r.Success? ==> Valid(r.value)
  {
    ApproveSymmetric(s, actor, c, v, now);
    ApproveUnique(s, actor, c, v, now);
    ApproveSinglePending(s, actor, c, v, now);
    ApproveRequestersKnown(s, actor, c, v, now);
    ApprovePendingNotMember(s, actor, c, v, now);
  }

  // ----- steps that leave every membership edge alone -----

  /** `t` has the same cabins and users as `s`, and each with the same members and
      associations; only descriptive fields, requests or notifications may differ. */
  ghost predicate SameMembership(s: Store, t: Store)
  {
    && t.cabins.Keys == s.cabins.Keys
    && (forall d :: d in s.cabins ==> t.cabins[d].members == s.cabins[d].members)
    && t.users.Keys == s.users.Keys
    && (forall w :: w in s.users ==> t.users[w].cabins == s.users[w].cabins)
  }

  lemma SameMembershipKeeps(s: Store, t: Store)
    requires SameMembership(s, t)
    ensures Symmetric(s) ==> Symmetric(t)
    ensures UniqueMembership(s) ==> UniqueMembership(t)
    ensures UniqueAssociations(s) ==> UniqueAssociations(t)
  {
    if Symmetric(s) {
      forall u, d, role ensures CabinEdge(t, u, d, role) <==> UserEdge(t, u, d, role) {
        assert CabinEdge(t, u, d, role) <==> CabinEdge(s, u, d, role);
        assert UserEdge(t, u, d, role) <==> UserEdge(s, u, d, role);
        assert CabinEdge(s, u, d, role) <==> UserEdge(s, u, d, role);
      }
    }
  }

  /** Same membership and same requests: the request invariants carry over. */
  lemma SameRequestsKeep(s: Store, t: Store)
    requires SameMembership(s, t)
    requires forall d :: d in s.cabins ==> t.cabins[d].membershipRequests == s.cabins[d].membershipRequests
    ensures SinglePending(s) ==> SinglePending(t)
    ensures PendingNotMember(s) ==> PendingNotMember(t)
    ensures RequestersKnown(s) ==> RequestersKnown(t)
  {
    if PendingNotMember(s) {
      forall d | d in t.cabins ensures PendingExcludesMember(t.cabins[d]) {
        forall w | HasPendingRequest(t.cabins[d], w) ensures !IsMember(t.cabins[d], w) {
          assert HasPendingRequest(s.cabins[d], w);
        }
      }
    }
  }

  /** A step that rewrites only cabin `c` and keeps the set of users: the request
      invariants hold afterwards if they hold for the new version of `c`. */
  lemma OneCabinRequests(s: Store, t: Store, c: CabinId)
    requires c in s.cabins && t.cabins.Keys == s.cabins.Keys && t.users.Keys == s.users.Keys
    requires forall d :: d in s.cabins && d != c ==> t.cabins[d] == s.cabins[d]
    requires SinglePending(s) && PendingNotMember(s) && RequestersKnown(s)
    requires AtMostOnePending(t.cabins[c].membershipRequests) && PendingExcludesMember(t.cabins[c])
    requires forall i :: 0 <= i < |t.cabins[c].membershipRequests| ==> t.cabins[c].membershipRequests[i].userId in s.users
    ensures SinglePending(t) && PendingNotMember(t) && RequestersKnown(t)
  {
  }

  // ----- updateCabin -----

  lemma UpdateCabinValid(s: Store, actor: Option<Payload>, c: CabinId, u: CabinUpdate)
    requires Valid(s)
    ensures var r := UpdateCabin(s, actor, c, u); r.Success? ==> Valid(r.value)
  {
    var r := UpdateCabin(s, actor, c, u);
    if r.Success? {
      var t := r.value;
      assert forall d :: d in s.cabins ==>
        t.cabins[d].members == s.cabins[d].members && t.cabins[d].membershipRequests == s.cabins[d].membershipRequests;
      SameMembershipKeeps(s, t);
      SameRequestsKeep(s, t);
    }
  }

  // ----- markNotificationRead / markAllNotificationsRead -----

  lemma MarkNotificationReadValid(s: Store, actor: Option<Payload>, id: nat)
    requires Valid(s)
    ensures var r := MarkNotificationRead(s, actor, id); r.Success? ==> Valid(r.value)
  {
    var r := MarkNotificationRead(s, actor, id);
    if r.Success? {
      SameMembershipKeeps(s, r.value);
      SameRequestsKeep(s, r.value);
    }
  }

  lemma MarkAllNotificationsReadValid(s: Store, actor: Option<Payload>)
    requires Valid(s)
    ensures var r := MarkAllNotificationsRead(s, actor); r.Success? ==> Valid(r.value)
  {
    var r := MarkAllNotificationsRead(s, actor);
    if r.Success? {
      SameMembershipKeeps(s, r.value);
      SameRequestsKeep(s, r.value);
    }
  }

  // ----- rejectMembershipRequest -----

  /** reject touches no member and no association. */
  lemma RejectMembership(s: Store, actor: Option<Payload>, c: CabinId, v: UserId, now: nat)
    requires Symmetric(s) && UniqueMembership(s) && UniqueAssociations(s)
    ensures var r := RejectMembershipRequest(s, actor, c, v, now);
      r.Success? ==> Symmetric(r.value) && UniqueMembership(r.value) && UniqueAssociations(r.value)
  {
    var r := RejectMembershipRequest(s, actor, c, v, now);
    if r.Success? {
      assert SameMembership(s, r.value);
      SameMembershipKeeps(s, r.value);
    }
  }

  /** reject resolves `v`'s pending request without adding a member. */
  lemma RejectRequests(s: Store, actor: Option<Payload>, c: CabinId, v: UserId, now: nat)
    requires SinglePending(s) && PendingNotMember(s) && RequestersKnown(s)
    ensures var r := RejectMembershipRequest(s, actor, c, v, now);
      r.Success? ==> SinglePending(r.value) && PendingNotMember(r.value) && RequestersKnown(r.value)
    ensures var r := RejectMembershipRequest(s, actor, c, v, now);
      r.Success? ==> !HasPendingRequest(r.value.cabins[c], v) && !IsMember(r.value.cabins[c], v)
  {
    var r := RejectMembershipRequest(s, actor, c, v, now);
    if r.Success? {
      var cabin := s.cabins[c];
      var rs := ResolvePending(cabin.membershipRequests, v, REJECTED);
      assert r.value.cabins[c] == cabin.(membershipRequests := rs);
      ResolvePendingEffect(cabin.membershipRequests, v, REJECTED, v);
      RejectedExcludes(cabin, v);
      OneCabinRequests(s, r.value, c);
    }
  }

  lemma RejectValid(s: Store, actor: Option<Payload>, c: CabinId, v: UserId, now: nat)
    requires Valid(s)
    ensures var r := RejectMembershipRequest(s, actor, c, v, now); r.Success? ==> Valid(r.value)
  {
    RejectMembership(s, actor, c, v, now);
    RejectRequests(s, actor, c, v, now);
  }

  // ----- requestCabinMembership -----

  /** A request touches no member and no association. */
  lemma RequestMembership(s: Store, actor: Option<Payload>, c: CabinId, now: nat)
    requires Symmetric(s) && UniqueMembership(s) && UniqueAssociations(s)
    ensures var r := RequestCabinMembership(s, actor, c, now);
      r.Success? ==> Symmetric(r.value) && UniqueMembership(r.value) && UniqueAssociations(r.value)
  {
    var r := RequestCabinMembership(s, actor, c, now);
    if r.Success? {
      assert SameMembership(s, r.value);
      SameMembershipKeeps(s, r.value);
    }
  }

  /** A request appends one PENDING request of a caller who had none and is no member. */
  lemma RequestRequests(s: Store, actor: Option<Payload>, c: CabinId, now: nat)
    requires SinglePending(s) && PendingNotMember(s) && RequestersKnown(s) && KnownCaller(s, actor)
    ensures var r := RequestCabinMembership(s, actor, c, now);
      r.Success? ==> SinglePending(r.value) && PendingNotMember(r.value) && RequestersKnown(r.value)
  {
    var r := RequestCabinMembership(s, actor, c, now);
    if r.Success? {
      var me := actor.value.id;
      var cabin := s.cabins[c];
      assert r.value.cabins[c] == cabin.(membershipRequests := cabin.membershipRequests + [MembershipRequest(me, PENDING)]);
      AtMostOnePendingAppend(cabin.membershipRequests, me);
      RequestedExcludes(cabin, me);
      OneCabinRequests(s, r.value, c);
    }
  }

  lemma RequestValid(s: Store, actor: Option<Payload>, c: CabinId, now: nat)
    requires Valid(s) && KnownCaller(s, actor)
    ensures var r := RequestCabinMembership(s, actor, c, now); r.Success? ==> Valid(r.value)
  {
    RequestMembership(s, actor, c, now);
    RequestRequests(s, actor, c, now);
  }

  // ----- removeCabinMember -----

  /** remove takes away exactly the edges between `v` and `c`, on each side. */
  lemma RemoveEdge(s: Store, actor: Option<Payload>, c: CabinId, v: UserId, now: nat, u: UserId, d: CabinId, role: CabinRole)
    requires RemoveCabinMember(s, actor, c, v, now).Success?
    ensures var t := RemoveCabinMember(s, actor, c, v, now).value;
      && (CabinEdge(t, u, d, role) <==> CabinEdge(s, u, d, role) && !(u == v && d == c))
      && (UserEdge(t, u, d, role) <==> UserEdge(s, u, d, role) && !(u == v && d == c))
  {
    var t := RemoveCabinMember(s, actor, c, v, now).value;
    if d != c {
      assert CabinEdge(t, u, d, role) <==> CabinEdge(s, u, d, role);
    }
    if u == v && v in s.users {
      assert t.users[v].cabins == PullCabin(s.users[v].cabins, c);
    } else {
      assert UserEdge(t, u, d, role) <==> UserEdge(s, u, d, role);
    }
  }

  lemma RemoveSymmetric(s: Store, actor: Option<Payload>, c: CabinId, v: UserId, now: nat)
    requires Symmetric(s)
    ensures var r := RemoveCabinMember(s, actor, c, v, now); r.Success? ==> Symmetric(r.value)
  {
    var r := RemoveCabinMember(s, actor, c, v, now);
    if r.Success? {
      forall u, d, role ensures CabinEdge(r.value, u, d, role) <==> UserEdge(r.value, u, d, role) {
        RemoveEdge(s, actor, c, v, now, u, d, role);
        assert CabinEdge(s, u, d, role) <==> UserEdge(s, u, d, role);
      }
    }
  }

  /** Pulling entries keeps members and associations duplicate-free. */
  lemma RemoveUnique(s: Store, actor: Option<Payload>, c: CabinId, v: UserId, now: nat)
    requires UniqueMembership(s) && UniqueAssociations(s)
    ensures var r := RemoveCabinMember(s, actor, c, v, now);
      r.Success? ==> UniqueMembership(r.value) && UniqueAssociations(r.value)
  {
    var r := RemoveCabinMember(s, actor, c, v, now);
    if r.Success? {
      assert r.value.cabins[c].members == PullMember(s.cabins[c].members, v);
      if v in s.users {
        assert r.value.users[v].cabins == PullCabin(s.users[v].cabins, c);
      }
    }
  }

  /** Removing members cannot make a pending requester a member; requests are untouched. */
  lemma RemoveRequests(s: Store, actor: Option<Payload>, c: CabinId, v: UserId, now: nat)
    requires SinglePending(s) && PendingNotMember(s) && RequestersKnown(s)
    ensures var r := RemoveCabinMember(s, actor, c, v, now);
      r.Success? ==> SinglePending(r.value) && PendingNotMember(r.value) && RequestersKnown(r.value)
    ensures var r := RemoveCabinMember(s, actor, c, v, now);
      r.Success? ==> forall d :: d in s.cabins ==> r.value.cabins[d].membershipRequests == s.cabins[d].membershipRequests
  {
    var r := RemoveCabinMember(s, actor, c, v, now);
    if r.Success? {
      var cabin := s.cabins[c];
      var ms := PullMember(cabin.members, v);
      assert r.value.cabins[c] == cabin.(members := ms);
      forall i | 0 <= i < |ms| ensures exists j :: 0 <= j < |cabin.members| && cabin.members[j].userId == ms[i].userId {
        var j := IndexOf(cabin.members, ms[i]);
      }
      FewerMembersExcludes(cabin, ms);
      OneCabinRequests(s, r.value, c);
    }
  }

  lemma RemoveValid(s: Store, actor: Option<Payload>, c: CabinId, v: UserId, now: nat)
    requires Valid(s)
    ensures var r := RemoveCabinMember(s, actor, c, v, now); r.Success? ==> Valid(r.value)
  {
    RemoveSymmetric(s, actor, c, v, now);
    RemoveUnique(s, actor, c, v, now);
    RemoveRequests(s, actor, c, v, now);
  }

  // ----- changeMemberRole -----

  /** change-role gives the cabin-side (v, c) edge the new role if `v` was a member,
      and leaves every other cabin-side edge alone. */
  lemma ChangeRoleCabinEdge(s: Store, actor: Option<Payload>, c: CabinId, v: UserId, roleName: string, now: nat,
                            u: UserId, d: CabinId, role: CabinRole)
    requires ChangeMemberRole(s, actor, c, v, roleName, now).Success?
    ensures CabinEdge(ChangeMemberRole(s, actor, c, v, roleName, now).value, u, d, role) <==>
      if u == v && d == c then role == ParseCabinRole(roleName).value && IsMember(s.cabins[c], v)
      else CabinEdge(s, u, d, role)
  {
    var t := ChangeMemberRole(s, actor, c, v, roleName, now).value;
    var to := ParseCabinRole(roleName).value;
    if d == c {
      assert t.cabins[c].members == SetMemberRole(s.cabins[c].members, v, to);
      SetMemberRoleEntries(s.cabins[c].members, v, to, u, role);
    } else if d in s.cabins {
      assert t.cabins[d] == s.cabins[d];
    }
  }

  /** The same on the user side: `v`'s association with `c` takes the new role if
      there is one, and every other association is left alone. */
  lemma ChangeRoleUserEdge(s: Store, actor: Option<Payload>, c: CabinId, v: UserId, roleName: string, now: nat,
                           u: UserId, d: CabinId, role: CabinRole)
    requires ChangeMemberRole(s, actor, c, v, roleName, now).Success?
    ensures UserEdge(ChangeMemberRole(s, actor, c, v, roleName, now).value, u, d, role) <==>
      if u == v && d == c then role == ParseCabinRole(roleName).value && v in s.users && IsMemberOfCabin(s.users[v], c)
      else UserEdge(s, u, d, role)
  {
    var t := ChangeMemberRole(s, actor, c, v, roleName, now).value;
    var to := ParseCabinRole(roleName).value;
    if u == v && v in s.users {
      assert t.users[v].cabins == SetCabinRole(s.users[v].cabins, c, to);
      SetCabinRoleEntries(s.users[v].cabins, c, to, d, role);
    } else if u in s.users {
      assert t.users[u] == s.users[u];
    }
  }

  lemma ChangeRoleSymmetric(s: Store, actor: Option<Payload>, c: CabinId, v: UserId, roleName: string, now: nat)
    requires Symmetric(s)
    ensures var r := ChangeMemberRole(s, actor, c, v, roleName, now); r.Success? ==> Symmetric(r.value)
  {
    var r := ChangeMemberRole(s, actor, c, v, roleName, now);
    if r.Success? {
      MemberBothSides(s, v, c);
      forall u, d, role ensures CabinEdge(r.value, u, d, role) <==> UserEdge(r.value, u, d, role) {
        ChangeRoleCabinEdge(s, actor, c, v, roleName, now, u, d, role);
        ChangeRoleUserEdge(s, actor, c, v, roleName, now, u, d, role);
        assert CabinEdge(s, u, d, role) <==> UserEdge(s, u, d, role);
      }
    }
  }

  /** change-role keeps every user id in the members and every cabin id in the
      associations where it was, so both stay duplicate-free. */
  lemma ChangeRoleUnique(s: Store, actor: Option<Payload>, c: CabinId, v: UserId, roleName: string, now: nat)
    requires UniqueMembership(s) && UniqueAssociations(s)
    ensures var r := ChangeMemberRole(s, actor, c, v, roleName, now);
      r.Success? ==> UniqueMembership(r.value) && UniqueAssociations(r.value)
  {
    var r := ChangeMemberRole(s, actor, c, v, roleName, now);
    if r.Success? {
      var t := r.value;
      var to := ParseCabinRole(roleName).value;
      assert t.cabins[c].members == SetMemberRole(s.cabins[c].members, v, to);
      if v in s.users {
        assert t.users[v].cabins == SetCabinRole(s.users[v].cabins, c, to);
      }
    }
  }

  /** change-role touches no request and keeps the set of member ids, so the request
      invariants carry over. */
  lemma ChangeRoleRequests(s: Store, actor: Option<Payload>, c: CabinId, v: UserId, roleName: string, now: nat)
    requires SinglePending(s) && PendingNotMember(s) && RequestersKnown(s)
    ensures var r := ChangeMemberRole(s, actor, c, v, roleName, now);
      r.Success? ==> SinglePending(r.value) && PendingNotMember(r.value) && RequestersKnown(r.value)
  {
    var r := ChangeMemberRole(s, actor, c, v, roleName, now);
    if r.Success? {
      var t := r.value;
      var cabin := s.cabins[c];
      var to := ParseCabinRole(roleName).value;
      var ms := SetMemberRole(cabin.members, v, to);
      assert t.cabins[c] == cabin.(members := ms);
      forall i | 0 <= i < |ms| ensures exists j :: 0 <= j < |cabin.members| && cabin.members[j].userId == ms[i].userId {
        assert cabin.members[i].userId == ms[i].userId;
      }
      FewerMembersExcludes(cabin, ms);
      OneCabinRequests(s, t, c);
    }
  }

  lemma ChangeRoleValid(s: Store, actor: Option<Payload>, c: CabinId, v: UserId, roleName: string, now: nat)
    requires Valid(s)
    ensures var r := ChangeMemberRole(s, actor, c, v, roleName, now); r.Success? ==> Valid(r.value)
  {
    ChangeRoleSymmetric(s, actor, c, v, roleName, now);
    ChangeRoleUnique(s, actor, c, v, roleName, now);
    ChangeRoleRequests(s, actor, c, v, roleName, now);
  }

  // ----- deleteCabin -----

  lemma DeleteValid(s: Store, actor: Option<Payload>, c: CabinId)
    requires Valid(s)
    ensures var r := DeleteCabin(s, actor, c); r.Success? ==> Valid(r.value)
  {
    var r := DeleteCabin(s, actor, c);
    if r.Success? {
      var t := r.value;
      forall u, d, role ensures CabinEdge(t, u, d, role) <==> UserEdge(t, u, d, role) {
        assert CabinEdge(t, u, d, role) <==> CabinEdge(s, u, d, role) && d != c;
        if u in s.users {
          assert t.users[u].cabins == PullCabin(s.users[u].cabins, c);
        }
        assert UserEdge(t, u, d, role) <==> UserEdge(s, u, d, role) && d != c;
        assert CabinEdge(s, u, d, role) <==> UserEdge(s, u, d, role);
      }
      forall w | w in t.users ensures UniqueCabins(t.users[w].cabins) {
        assert t.users[w].cabins == PullCabin(s.users[w].cabins, c);
      }
    }
  }

  // ----- every step and every run -----

  /** Every successful mutation keeps the invariants and the set of users. */
  lemma StepValid(s: Store, actor: Option<Payload>, op: Op, now: nat)
    requires Valid(s) && KnownCaller(s, actor)
    ensures var r := Step(s, actor, op, now); r.Success? ==> Valid(r.value)
  {
    match op
    case CreateCabinOp(input, newId) => CreateCabinValid(s, actor, input, newId);
    case UpdateCabinOp(c, u) => UpdateCabinValid(s, actor, c, u);
    case DeleteCabinOp(c) => DeleteValid(s, actor, c);
    case RequestMembershipOp(c) => RequestValid(s, actor, c, now);
    case ApproveRequestOp(c, v) => ApproveValid(s, actor, c, v, now);
    case RejectRequestOp(c, v) => RejectValid(s, actor, c, v, now);
    case RemoveMemberOp(c, v) => RemoveValid(s, actor, c, v, now);
    case ChangeRoleOp(c, v, role) => ChangeRoleValid(s, actor, c, v, role, now);
    case MarkNotificationReadOp(id) => MarkNotificationReadValid(s, actor, id);
    case MarkAllNotificationsReadOp => MarkAllNotificationsReadValid(s, actor);
  }

  /** Any sequence of calls by users of the store, starting from a valid store, ends in
      a valid store. */
  lemma {:induction false} RunValid(s: Store, calls: seq<Call>)
    requires Valid(s)
    requires forall i :: 0 <= i < |calls| ==> KnownCaller(s, calls[i].actor)
    ensures Valid(Run(s, calls))
    decreases |calls|
  {
    if calls != [] {
      var next := Step(s, calls[0].actor, calls[0].op, calls[0].now);
      StepValid(s, calls[0].actor, calls[0].op, calls[0].now);
      var s' := if next.Success? then next.value else s;
      assert forall i :: 0 <= i < |calls[1..]| ==> KnownCaller(s', calls[1..][i].actor) by {
        forall i | 0 <= i < |calls[1..]| ensures KnownCaller(s', calls[1..][i].actor) {
          assert calls[1..][i] == calls[i + 1];
        }
      }
      RunValid(s', calls[1..]);
    }
  }

  /** A store whose users have no cabin associations and which has no cabins yet (what
      registering users produces) satisfies every invariant. */
  lemma NoCabinsValid(s: Store)
    requires s.cabins == map[]
    requires forall w :: w in s.users ==> s.users[w].cabins == []
    ensures Valid(s)
  {
    forall u, c, role ensures !UserEdge(s, u, c, role) {
      if u in s.users {
        assert s.users[u].cabins == [];
      }
    }
  }

  /** So every store reachable from a store of users with no cabins, by calls of those
      users, satisfies every invariant. */
  lemma FreshUsersRunValid(s: Store, calls: seq<Call>)
    requires s.cabins == map[]
    requires forall w :: w in s.users ==> s.users[w].cabins == []
    requires forall i :: 0 <= i < |calls| ==> KnownCaller(s, calls[i].actor)
    ensures Valid(Run(s, calls))
  {
    NoCabinsValid(s);
    RunValid(s, calls);
  }
}
