/** The whole database as one immutable value: the users collection, the cabins
    collection, and the generator of notification ids. The single-document writes the
    resolvers issue on users are defined here, together with the store invariants. */
module StoreModel {
  import opened CabinModel
  import opened UserModel

  datatype Store = Store(
    users: map<UserId, User>,
    cabins: map<CabinId, Cabin>,
    nextNotificationId: nat)

  // ----- writes to one user document (`User.findByIdAndUpdate`) -----
  // MongoDB applies an update to a missing id as a no-op, so each of these leaves
  // the store alone when `v` is not a user.

  /** `$push: { notifications: { type, relatedTo } }` on user `v`. */
  function Notify(s: Store, v: UserId, kind: NotificationType, c: CabinId, now: nat): (r: Store)
    ensures r.cabins == s.cabins && r.users.Keys == s.users.Keys
    ensures forall w :: w in s.users ==>
      Appended(s.users[w], r.users[w], if w == v then 1 else 0, kind, c, now)
  {
    if v !in s.users then s
    else
      var u := s.users[v];
      var n := NewNotification(s.nextNotificationId, kind, c, now);
      var u' := u.(notifications := u.notifications + [n]);
      assert Appended(u, u', 1, kind, c, now);
      Store(s.users[v := u'], s.cabins, s.nextNotificationId + 1)
  }

  /** One notification pushed to each entry of `recipients`, in order (the loop over
      the cabin's admins). A user listed k times receives k notifications. */
  function NotifyEach(s: Store, recipients: seq<UserId>, kind: NotificationType, c: CabinId, now: nat): (r: Store)
    ensures r.cabins == s.cabins && r.users.Keys == s.users.Keys
    ensures forall w :: w in s.users ==>
      Appended(s.users[w], r.users[w], Count(recipients, w), kind, c, now)
    decreases |recipients|
  {
    if recipients == [] then
      assert forall w :: w in s.users ==> Appended(s.users[w], s.users[w], 0, kind, c, now) by {
        forall w | w in s.users ensures Appended(s.users[w], s.users[w], 0, kind, c, now) {
          assert s.users[w].notifications[..|s.users[w].notifications|] == s.users[w].notifications;
        }
      }
      s
    else
      var s1 := Notify(s, recipients[0], kind, c, now);
      var r := NotifyEach(s1, recipients[1..], kind, c, now);
      forall w | w in s.users
        ensures Appended(s.users[w], r.users[w], Count(recipients, w), kind, c, now)
      {
        AppendedTrans(s.users[w], s1.users[w], r.users[w],
          if w == recipients[0] then 1 else 0, Count(recipients[1..], w), kind, c, now);
      }
      r
  }

  /** `after` is `before` with exactly `k` notifications of the given kind, cabin and
      time appended, all unread, and nothing else changed. */
  ghost predicate Appended(before: User, after: User, k: nat, kind: NotificationType, c: CabinId, now: nat)
  {
    && after == before.(notifications := after.notifications)
    && |after.notifications| == |before.notifications| + k
    && after.notifications[..|before.notifications|] == before.notifications
    && forall i :: |before.notifications| <= i < |after.notifications| ==>
         && after.notifications[i].kind == kind
         && after.notifications[i].relatedTo == c
         && after.notifications[i].createdAt == now
         && !after.notifications[i].read
  }

  lemma AppendedTrans(a: User, b: User, d: User, k1: nat, k2: nat, kind: NotificationType, c: CabinId, now: nat)
    requires Appended(a, b, k1, kind, c, now) && Appended(b, d, k2, kind, c, now)
    ensures Appended(a, d, k1 + k2, kind, c, now)
  {
    assert d.notifications[..|b.notifications|] == b.notifications;
    assert d.notifications[..|a.notifications|] == b.notifications[..|a.notifications|];
    forall i | |a.notifications| <= i < |d.notifications|
      ensures d.notifications[i].kind == kind && d.notifications[i].relatedTo == c
      ensures d.notifications[i].createdAt == now && !d.notifications[i].read
    {
      if i < |b.notifications| {
        assert d.notifications[i] == b.notifications[i];
      }
    }
  }

  /** `$push: { cabins: uc }` on user `v`. */
  function AddAssociation(s: Store, v: UserId, uc: UserCabin): (r: Store)
    ensures r.cabins == s.cabins && r.users.Keys == s.users.Keys
    ensures r.nextNotificationId == s.nextNotificationId
    ensures forall w :: w in s.users && w != v ==> r.users[w] == s.users[w]
    ensures v in s.users ==> r.users[v] == s.users[v].(cabins := s.users[v].cabins + [uc])
  {
    if v !in s.users then s
    else
      var u := s.users[v];
      Store(s.users[v := u.(cabins := u.cabins + [uc])], s.cabins, s.nextNotificationId)
  }

  /** `$pull: { cabins: { cabinId: c } }` on user `v`. */
  function PullAssociation(s: Store, v: UserId, c: CabinId): (r: Store)
    ensures r.cabins == s.cabins && r.users.Keys == s.users.Keys
    ensures r.nextNotificationId == s.nextNotificationId
    ensures forall w :: w in s.users && w != v ==> r.users[w] == s.users[w]
    ensures v in s.users ==> r.users[v] == s.users[v].(cabins := PullCabin(s.users[v].cabins, c))
  {
    if v !in s.users then s
    else
      var u := s.users[v];
      Store(s.users[v := u.(cabins := PullCabin(u.cabins, c))], s.cabins, s.nextNotificationId)
  }

  /** `$set: { 'cabins.$[elem].role': role }` filtered on `elem.cabinId == c`, on user `v`. */
  function SetAssociationRole(s: Store, v: UserId, c: CabinId, role: CabinRole): (r: Store)
    ensures r.cabins == s.cabins && r.users.Keys == s.users.Keys
    ensures r.nextNotificationId == s.nextNotificationId
    ensures forall w :: w in s.users && w != v ==> r.users[w] == s.users[w]
    ensures v in s.users ==> r.users[v] == s.users[v].(cabins := SetCabinRole(s.users[v].cabins, c, role))
  {
    if v !in s.users then s
    else
      var u := s.users[v];
      Store(s.users[v := u.(cabins := SetCabinRole(u.cabins, c, role))], s.cabins, s.nextNotificationId)
  }

  /** `User.updateMany({ 'cabins.cabinId': c }, { $pull: { cabins: { cabinId: c } } })`. */
  function PullCabinFromAll(users: map<UserId, User>, c: CabinId): (r: map<UserId, User>)
    ensures r.Keys == users.Keys
    ensures forall w :: w in users ==> r[w] == users[w].(cabins := PullCabin(users[w].cabins, c))
  {
    map w | w in users :: users[w].(cabins := PullCabin(users[w].cabins, c))
  }

  // ----- the membership edge, seen from either side -----

  /** The cabin side holds the edge: cabin `c` lists `u` as a member with `role`. */
  ghost predicate CabinEdge(s: Store, u: UserId, c: CabinId, role: CabinRole)
  {
    c in s.cabins && Member(u, role) in s.cabins[c].members
  }

  /** The user side holds the edge: user `u` lists cabin `c` with `role`. */
  ghost predicate UserEdge(s: Store, u: UserId, c: CabinId, role: CabinRole)
  {
    u in s.users && UserCabin(c, role) in s.users[u].cabins
  }

  // ----- the invariants -----

  /** Dual-write symmetry: a (user, cabin, role) edge is on the cabin side iff it is on the user side. */
  ghost predicate Symmetric(s: Store)
  {
    forall u, c, role :: CabinEdge(s, u, c, role) <==> UserEdge(s, u, c, role)
  }

  /** A user appears at most once in each cabin's members. */
  ghost predicate UniqueMembership(s: Store)
  {
    forall c :: c in s.cabins ==> UniqueMembers(s.cabins[c].members)
  }

  /** A cabin appears at most once in each user's associations. */
  ghost predicate UniqueAssociations(s: Store)
  {
    forall u :: u in s.users ==> UniqueCabins(s.users[u].cabins)
  }

  /** At most one PENDING request per (user, cabin). */
  ghost predicate SinglePending(s: Store)
  {
    forall c :: c in s.cabins ==> AtMostOnePending(s.cabins[c].membershipRequests)
  }

  /** A pending request implies the user is not a member. */
  ghost predicate PendingNotMember(s: Store)
  {
    forall c :: c in s.cabins ==> PendingExcludesMember(s.cabins[c])
  }

  /** Every request was made by a user of the store. */
  ghost predicate RequestersKnown(s: Store)
  {
    forall c, i :: c in s.cabins && 0 <= i < |s.cabins[c].membershipRequests|
      ==> s.cabins[c].membershipRequests[i].userId in s.users
  }

  ghost predicate Valid(s: Store)
  {
    && Symmetric(s)
    && UniqueMembership(s)
    && UniqueAssociations(s)
    && SinglePending(s)
    && PendingNotMember(s)
    && RequestersKnown(s)
  }

  /** Under symmetry, membership reads the same from both sides. */
  lemma MemberBothSides(s: Store, u: UserId, c: CabinId)
    requires Symmetric(s) && c in s.cabins
    ensures IsMember(s.cabins[c], u) <==> (u in s.users && IsMemberOfCabin(s.users[u], c))
    ensures IsAdmin(s.cabins[c], u) <==> (u in s.users && IsAdminOfCabin(s.users[u], c))
  {
    assert CabinEdge(s, u, c, ADMIN) <==> UserEdge(s, u, c, ADMIN);
    assert CabinEdge(s, u, c, MEMBER) <==> UserEdge(s, u, c, MEMBER);
  }
}
