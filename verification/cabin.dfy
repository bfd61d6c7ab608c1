/** The Cabin document: its member and membership-request records, the role and
    status enumerations, and the three membership queries defined on a cabin. */
module CabinModel {
  import opened Wrappers

  /** Identifiers are opaque strings (MongoDB ObjectIds compared through `toString()`). */
  type UserId = string
  type CabinId = string

  /** A member's role inside one cabin. The schema default is `MEMBER`. */
  datatype CabinRole = ADMIN | MEMBER

  /** The state of a membership request. A new request defaults to `PENDING`. */
  datatype RequestStatus = PENDING | APPROVED | REJECTED

  /** One entry of `members`. The join date is not modelled. */
  datatype Member = Member(userId: UserId, role: CabinRole)

  /** One entry of `membershipRequests`. The request date is not modelled. */
  datatype MembershipRequest = MembershipRequest(userId: UserId, status: RequestStatus)

  /** The editable descriptive fields of a cabin. */
  datatype CabinInfo = CabinInfo(name: string, description: string, location: string, image: string)

  const DefaultImage: string := "/images/default-cabin.jpg"

  datatype Cabin = Cabin(
    info: CabinInfo,
    createdBy: UserId,
    members: seq<Member>,
    membershipRequests: seq<MembershipRequest>)

  /** The string stored for a cabin role. */
  function CabinRoleName(r: CabinRole): string
  {
    match r
    case ADMIN => "ADMIN"
    case MEMBER => "MEMBER"
  }

  /** The schema's enum check on a role string: only "ADMIN" and "MEMBER" are accepted. */
  function ParseCabinRole(name: string): (r: Option<CabinRole>)
    ensures r.Some? <==> name == "ADMIN" || name == "MEMBER"
  {
    if name == "ADMIN" then Some(ADMIN)
    else if name == "MEMBER" then Some(MEMBER)
    else None
  }

  /** Parsing and naming are inverse: every role survives the round trip through its
      stored string, and every accepted string is the name of the role it parses to. */
  lemma CabinRoleRoundTrip(r: CabinRole, name: string)
    ensures ParseCabinRole(CabinRoleName(r)) == Some(r)
    ensures ParseCabinRole(name).Some? ==> CabinRoleName(ParseCabinRole(name).value) == name
  {
  }

  // ----- the `some` scans behind isAdmin / isMember / hasPendingRequest -----

  /** Left-to-right scan of `members` for an ADMIN entry of `u`. */
  function ScanAdmin(ms: seq<Member>, u: UserId): (b: bool)
    ensures b <==> Member(u, ADMIN) in ms
  {
    if ms == [] then false
    else (ms[0].userId == u && ms[0].role == ADMIN) || ScanAdmin(ms[1..], u)
  }

  /** Left-to-right scan of `members` for any entry of `u`. */
  function ScanMember(ms: seq<Member>, u: UserId): (b: bool)
    ensures b <==> exists i :: 0 <= i < |ms| && ms[i].userId == u
    ensures b <==> Member(u, ADMIN) in ms || Member(u, MEMBER) in ms
  {
    if ms == [] then false
    else if ms[0].userId == u then
      assert ms[0] in ms;
      assert ms[0] == Member(u, ms[0].role);
      assert ms[0].role == ADMIN || ms[0].role == MEMBER;
      true
    else
      var b := ScanMember(ms[1..], u);
      assert forall i :: 1 <= i < |ms| ==> ms[i] == ms[1..][i - 1];
      b
  }

  /** Left-to-right scan of `membershipRequests` for a PENDING request of `u`. */
  function ScanPending(rs: seq<MembershipRequest>, u: UserId): (b: bool)
    ensures b <==> MembershipRequest(u, PENDING) in rs
  {
    if rs == [] then false
    else (rs[0].userId == u && rs[0].status == PENDING) || ScanPending(rs[1..], u)
  }

  /** `cabin.isAdmin(userId)`: some member entry is `u` with role ADMIN. */
  function IsAdmin(c: Cabin, u: UserId): (b: bool)
    ensures b <==> exists i :: 0 <= i < |c.members| && c.members[i].userId == u && c.members[i].role == ADMIN
    ensures b ==> IsMember(c, u)
    ensures b <==> Member(u, ADMIN) in c.members
  {
    var b := ScanAdmin(c.members, u);
    assert b ==> c.members[IndexOf(c.members, Member(u, ADMIN))].userId == u;
    b
  }

  /** `cabin.isMember(userId)`: some member entry is `u`, whatever its role. */
  function IsMember(c: Cabin, u: UserId): (b: bool)
    ensures b <==> exists i :: 0 <= i < |c.members| && c.members[i].userId == u
    ensures b <==> Member(u, ADMIN) in c.members || Member(u, MEMBER) in c.members
  {
    ScanMember(c.members, u)
  }

  /** `cabin.hasPendingRequest(userId)`: some request of `u` has status PENDING;
      APPROVED and REJECTED requests never count. */
  function HasPendingRequest(c: Cabin, u: UserId): (b: bool)
    ensures b <==> exists i :: 0 <= i < |c.membershipRequests| && c.membershipRequests[i] == MembershipRequest(u, PENDING)
    ensures b <==> MembershipRequest(u, PENDING) in c.membershipRequests
  {
    var b := ScanPending(c.membershipRequests, u);
    assert b ==> c.membershipRequests[IndexOf(c.membershipRequests, MembershipRequest(u, PENDING))].userId == u;
    b
  }

  /** A position at which `x` occurs in `xs`. */
  function IndexOf<T(==)>(xs: seq<T>, x: T): (i: nat)
    requires x in xs
    ensures i < |xs| && xs[i] == x
  {
    if xs[0] == x then 0 else 1 + IndexOf(xs[1..], x)
  }

  // ----- well-formedness of the two lists -----

  /** A user appears at most once among the members. */
  ghost predicate UniqueMembers(ms: seq<Member>)
  {
    forall i, j :: 0 <= i < j < |ms| ==> ms[i].userId != ms[j].userId
  }

  /** No user has two PENDING requests. */
  ghost predicate AtMostOnePending(rs: seq<MembershipRequest>)
  {
    forall i, j :: 0 <= i < j < |rs| && rs[i].status == PENDING && rs[j].status == PENDING
      ==> rs[i].userId != rs[j].userId
  }

  /** Nobody with a pending request is a member. */
  ghost predicate PendingExcludesMember(c: Cabin)
  {
    forall u :: HasPendingRequest(c, u) ==> !IsMember(c, u)
  }

  // ----- the array updates the resolvers issue on a cabin -----

  /** `$pull: { members: { userId } }`: every entry of `u` is removed, the others keep their order. */
  function PullMember(ms: seq<Member>, u: UserId): (r: seq<Member>)
    ensures forall m :: m in r <==> m in ms && m.userId != u
    ensures UniqueMembers(ms) ==> UniqueMembers(r)
  {
    if ms == [] then []
    else
      var rest := PullMember(ms[1..], u);
      if ms[0].userId == u then rest
      else
        [ms[0]] + rest
  }

  /** `$set: { 'members.$[elem].role': role }` with the filter `elem.userId == u`:
      every entry of `u` takes the new role, every other entry is untouched. */
  function SetMemberRole(ms: seq<Member>, u: UserId, role: CabinRole): (r: seq<Member>)
    ensures |r| == |ms|
    ensures forall i :: 0 <= i < |ms| ==> r[i].userId == ms[i].userId
    ensures forall i :: 0 <= i < |ms| && ms[i].userId == u ==> r[i].role == role
    ensures forall i :: 0 <= i < |ms| && ms[i].userId != u ==> r[i] == ms[i]
    ensures UniqueMembers(ms) ==> UniqueMembers(r)
  {
    if ms == [] then []
    else
      var head := if ms[0].userId == u then Member(u, role) else ms[0];
      var r := [head] + SetMemberRole(ms[1..], u, role);
      assert forall i :: 0 <= i < |ms| ==> r[i].userId == ms[i].userId;
      r
  }

  /** `$set: { 'membershipRequests.$[elem].status': to }` with the filter
      `elem.userId == u && elem.status == 'PENDING'`: the PENDING requests of `u`
      take status `to`, every other request is untouched. */
  function ResolvePending(rs: seq<MembershipRequest>, u: UserId, to: RequestStatus): (r: seq<MembershipRequest>)
    ensures |r| == |rs|
    ensures forall i :: 0 <= i < |rs| ==> r[i].userId == rs[i].userId
    ensures forall i :: 0 <= i < |rs| && rs[i] == MembershipRequest(u, PENDING) ==> r[i].status == to
    ensures forall i :: 0 <= i < |rs| && rs[i] != MembershipRequest(u, PENDING) ==> r[i] == rs[i]
  {
    if rs == [] then []
    else
      var head := if rs[0] == MembershipRequest(u, PENDING) then MembershipRequest(u, to) else rs[0];
      [head] + ResolvePending(rs[1..], u, to)
  }

  /** The user ids of the ADMIN entries, in member order. */
  function AdminIds(ms: seq<Member>): (ids: seq<UserId>)
    ensures forall v :: Count(ids, v) == CountAdminEntries(ms, v)
  {
    if ms == [] then []
    else if ms[0].role == ADMIN then [ms[0].userId] + AdminIds(ms[1..])
    else AdminIds(ms[1..])
  }

  /** How many times `v` occurs in `xs`. */
  function Count<T(==)>(xs: seq<T>, v: T): nat
  {
    if xs == [] then 0 else (if xs[0] == v then 1 else 0) + Count(xs[1..], v)
  }

  /** How many ADMIN entries of `v` there are among the members. */
  function CountAdminEntries(ms: seq<Member>, v: UserId): nat
  {
    if ms == [] then 0 else (if ms[0] == Member(v, ADMIN) then 1 else 0) + CountAdminEntries(ms[1..], v)
  }

  /** With unique membership, a user is listed among the admins exactly once if it is
      an ADMIN member, and not at all otherwise. */
  lemma {:induction false} AdminCountUnique(ms: seq<Member>, v: UserId)
    requires UniqueMembers(ms)
    ensures CountAdminEntries(ms, v) == if Member(v, ADMIN) in ms then 1 else 0
  {
    if ms != [] {
      assert UniqueMembers(ms[1..]) by {
        forall i, j | 0 <= i < j < |ms[1..]| ensures ms[1..][i].userId != ms[1..][j].userId {
          assert ms[1..][i] == ms[i + 1] && ms[1..][j] == ms[j + 1];
        }
      }
      AdminCountUnique(ms[1..], v);
      if ms[0] == Member(v, ADMIN) {
        assert Member(v, ADMIN) !in ms[1..];
      } else {
        assert Member(v, ADMIN) in ms <==> Member(v, ADMIN) in ms[1..] by {
          assert ms == [ms[0]] + ms[1..];
        }
      }
    }
  }

  // ----- facts about the list updates, used by the invariant proofs -----

  /** `$pull` drops every member entry with userId `u` and keeps every other one exactly as
      often as it was listed. */
  lemma {:induction false} PullMemberCount(ms: seq<Member>, u: UserId, m: Member)
    ensures Count(PullMember(ms, u), m) == if m.userId == u then 0 else Count(ms, m)
  {
    if ms != [] {
      PullMemberCount(ms[1..], u, m);
      var rest := PullMember(ms[1..], u);
      if ms[0].userId != u {
        assert ([ms[0]] + rest)[1..] == rest;
      }
    }
  }

  /** `$pull` works element by element, so it keeps the order of what it keeps: pulling
      from a concatenation is concatenating the pulled halves. */
  lemma {:induction false} PullMemberAppend(a: seq<Member>, b: seq<Member>, u: UserId)
    ensures PullMember(a + b, u) == PullMember(a, u) + PullMember(b, u)
  {
    if a == [] {
      assert a + b == b;
    } else {
      assert (a + b)[0] == a[0] && (a + b)[1..] == a[1..] + b;
      PullMemberAppend(a[1..], b, u);
    }
  }

  /** `$pull` of a userId that no member entry carries leaves the members exactly as they were. */
  lemma {:induction false} PullMemberAbsent(ms: seq<Member>, u: UserId)
    requires forall i :: 0 <= i < |ms| ==> ms[i].userId != u
    ensures PullMember(ms, u) == ms
  {
    if ms != [] {
      assert ms[0].userId != u;
      forall i | 0 <= i < |ms[1..]| ensures ms[1..][i].userId != u {
        assert ms[1..][i] == ms[i + 1];
      }
      PullMemberAbsent(ms[1..], u);
    }
  }

  /** Appending an entry for a user not yet listed keeps membership unique. */
  lemma UniqueMembersAppend(ms: seq<Member>, m: Member)
    requires UniqueMembers(ms)
    requires forall i :: 0 <= i < |ms| ==> ms[i].userId != m.userId
    ensures UniqueMembers(ms + [m])
  {
    var r := ms + [m];
    forall i, j | 0 <= i < j < |r| ensures r[i].userId != r[j].userId {
      if j < |ms| {
        assert r[i] == ms[i] && r[j] == ms[j];
      } else {
        assert r[i] == ms[i];
      }
    }
  }

  /** Appending a PENDING request for a user without one keeps at most one pending per user. */
  lemma AtMostOnePendingAppend(rs: seq<MembershipRequest>, u: UserId)
    requires AtMostOnePending(rs)
    requires MembershipRequest(u, PENDING) !in rs
    ensures AtMostOnePending(rs + [MembershipRequest(u, PENDING)])
  {
    var r := rs + [MembershipRequest(u, PENDING)];
    forall i, j | 0 <= i < j < |r| && r[i].status == PENDING && r[j].status == PENDING
      ensures r[i].userId != r[j].userId
    {
      if j < |rs| {
        assert r[i] == rs[i] && r[j] == rs[j];
      } else {
        assert r[i] == rs[i];
        assert rs[i] == MembershipRequest(rs[i].userId, PENDING);
      }
    }
  }

  /** Resolving the pending requests of `u` to a final status leaves `u` without a
      pending request, leaves everyone else's pending requests as they were, and keeps
      at most one pending request per user. */
  lemma ResolvePendingEffect(rs: seq<MembershipRequest>, u: UserId, to: RequestStatus, w: UserId)
    requires to != PENDING
    ensures MembershipRequest(u, PENDING) !in ResolvePending(rs, u, to)
    ensures w != u ==> (MembershipRequest(w, PENDING) in ResolvePending(rs, u, to) <==> MembershipRequest(w, PENDING) in rs)
    ensures AtMostOnePending(rs) ==> AtMostOnePending(ResolvePending(rs, u, to))
  {
    var r := ResolvePending(rs, u, to);
    if w != u {
      if MembershipRequest(w, PENDING) in rs {
        var k := IndexOf(rs, MembershipRequest(w, PENDING));
        assert r[k] == rs[k];
      }
      if MembershipRequest(w, PENDING) in r {
        var k := IndexOf(r, MembershipRequest(w, PENDING));
        assert rs[k] == r[k] || rs[k] == MembershipRequest(u, PENDING);
      }
    }
    if AtMostOnePending(rs) {
      forall i, j | 0 <= i < j < |r| && r[i].status == PENDING && r[j].status == PENDING
        ensures r[i].userId != r[j].userId
      {
        assert r[i] == rs[i] && r[j] == rs[j];
      }
    }
  }

  /** Approving `v`'s pending request: `v` joins and loses its pending request, so
      nobody pending is a member afterwards either. */
  lemma ApprovedExcludes(c: Cabin, v: UserId)
    requires PendingExcludesMember(c)
    ensures PendingExcludesMember(c.(members := c.members + [Member(v, MEMBER)],
                                     membershipRequests := ResolvePending(c.membershipRequests, v, APPROVED)))
  {
    var c' := c.(members := c.members + [Member(v, MEMBER)],
                 membershipRequests := ResolvePending(c.membershipRequests, v, APPROVED));
    forall w | HasPendingRequest(c', w) ensures !IsMember(c', w) {
      assert w != v && HasPendingRequest(c, w) by {
        ResolvePendingEffect(c.membershipRequests, v, APPROVED, w);
      }
      assert Member(w, ADMIN) !in c.members && Member(w, MEMBER) !in c.members;
      assert Member(w, ADMIN) !in c'.members && Member(w, MEMBER) !in c'.members;
    }
  }

  /** Resolving a pending request without adding a member keeps the property. */
  lemma RejectedExcludes(c: Cabin, v: UserId)
    requires PendingExcludesMember(c)
    ensures PendingExcludesMember(c.(membershipRequests := ResolvePending(c.membershipRequests, v, REJECTED)))
  {
    var c' := c.(membershipRequests := ResolvePending(c.membershipRequests, v, REJECTED));
    forall w | HasPendingRequest(c', w) ensures !IsMember(c', w) {
      assert HasPendingRequest(c, w) by {
        ResolvePendingEffect(c.membershipRequests, v, REJECTED, w);
      }
    }
  }

  /** Members removed or members' roles rewritten: the set of member ids does not grow,
      so the property carries over. */
  lemma FewerMembersExcludes(c: Cabin, ms: seq<Member>)
    requires PendingExcludesMember(c)
    requires forall i :: 0 <= i < |ms| ==> exists j :: 0 <= j < |c.members| && c.members[j].userId == ms[i].userId
    ensures PendingExcludesMember(c.(members := ms))
  {
    var c' := c.(members := ms);
    forall w | HasPendingRequest(c', w) ensures !IsMember(c', w) {
      assert HasPendingRequest(c, w);
    }
  }

  /** Appending a PENDING request for a non-member keeps the property. */
  lemma RequestedExcludes(c: Cabin, u: UserId)
    requires PendingExcludesMember(c) && !IsMember(c, u)
    ensures PendingExcludesMember(c.(membershipRequests := c.membershipRequests + [MembershipRequest(u, PENDING)]))
  {
    var c' := c.(membershipRequests := c.membershipRequests + [MembershipRequest(u, PENDING)]);
    forall w | HasPendingRequest(c', w) ensures !IsMember(c', w) {
      if w != u {
        assert MembershipRequest(w, PENDING) in c.membershipRequests;
        assert HasPendingRequest(c, w);
      }
    }
  }

  /** The entries the filtered role `$set` leaves: other users' entries as they were,
      and for `u` exactly the new role, provided `u` was listed at all. */
  lemma SetMemberRoleEntries(ms: seq<Member>, u: UserId, to: CabinRole, w: UserId, role: CabinRole)
    ensures Member(w, role) in SetMemberRole(ms, u, to) <==>
      if w == u then role == to && ScanMember(ms, u) else Member(w, role) in ms
  {
    var r := SetMemberRole(ms, u, to);
    if Member(w, role) in r {
      var k := IndexOf(r, Member(w, role));
      assert ms[k].userId == w;
    }
    if w == u && role == to && ScanMember(ms, u) {
      var k :| 0 <= k < |ms| && ms[k].userId == u;
      assert r[k] == Member(u, to);
    }
    if w != u && Member(w, role) in ms {
      var k := IndexOf(ms, Member(w, role));
      assert r[k] == ms[k];
    }
  }
}
