/** The User document: global role, the list of cabin associations, the
    notification list, and the two per-cabin queries defined on a user. */
module UserModel {
  import opened Wrappers
  import opened CabinModel

  /** The global role. The schema default is `USER`. */
  datatype GlobalRole = USER | GLOBAL_ADMIN

  /** The schema's enum check on a global-role string. */
  function ParseGlobalRole(name: string): (r: Option<GlobalRole>)
    ensures r.Some? <==> name == "USER" || name == "GLOBAL_ADMIN"
    ensures r == Some(GLOBAL_ADMIN) <==> name == "GLOBAL_ADMIN"
  {
    if name == "USER" then Some(USER)
    else if name == "GLOBAL_ADMIN" then Some(GLOBAL_ADMIN)
    else None
  }

  /** The string stored for a global role. */
  function GlobalRoleName(r: GlobalRole): string
  {
    match r
    case USER => "USER"
    case GLOBAL_ADMIN => "GLOBAL_ADMIN"
  }

  /** Parsing and naming are inverse: every global role survives the round trip
      through its stored string, and every accepted string names its role. */
  lemma GlobalRoleRoundTrip(r: GlobalRole, name: string)
    ensures ParseGlobalRole(GlobalRoleName(r)) == Some(r)
    ensures ParseGlobalRole(name).Some? ==> GlobalRoleName(ParseGlobalRole(name).value) == name
  {
  }

  /** The kind of a notification. */
  datatype NotificationType = INVITE | APPROVAL | SYSTEM

  /** One entry of a user's `cabins`: the user's side of a membership edge.
      The role uses the same two values as a cabin member's role. */
  datatype UserCabin = UserCabin(cabinId: CabinId, role: CabinRole)

  /** One entry of `notifications`. The message text is not modelled; `createdAt`
      is an abstract timestamp, larger meaning later. */
  datatype Notification = Notification(
    id: nat,
    kind: NotificationType,
    relatedTo: CabinId,
    createdAt: nat,
    read: bool)

  /** The profile fields other than username and email are not modelled. */
  datatype User = User(
    username: string,
    email: string,
    passwordHash: string,
    role: GlobalRole,
    cabins: seq<UserCabin>,
    notifications: seq<Notification>)

  /** A freshly pushed notification: the schema default leaves it unread. */
  function NewNotification(id: nat, kind: NotificationType, relatedTo: CabinId, now: nat): (n: Notification)
    ensures !n.read
  {
    Notification(id, kind, relatedTo, now, false)
  }

  // ----- the `some` scans behind isAdminOfCabin / isMemberOfCabin -----

  /** Left-to-right scan of `cabins` for an ADMIN entry of cabin `c`. */
  function ScanAdminOf(ucs: seq<UserCabin>, c: CabinId): (b: bool)
    ensures b <==> UserCabin(c, ADMIN) in ucs
  {
    if ucs == [] then false
    else (ucs[0].cabinId == c && ucs[0].role == ADMIN) || ScanAdminOf(ucs[1..], c)
  }

  /** Left-to-right scan of `cabins` for any entry of cabin `c`. */
  function ScanMemberOf(ucs: seq<UserCabin>, c: CabinId): (b: bool)
    ensures b <==> exists i :: 0 <= i < |ucs| && ucs[i].cabinId == c
    ensures b <==> UserCabin(c, ADMIN) in ucs || UserCabin(c, MEMBER) in ucs
  {
    if ucs == [] then false
    else if ucs[0].cabinId == c then
      assert ucs[0] in ucs;
      assert ucs[0] == UserCabin(c, ucs[0].role);
      assert ucs[0].role == ADMIN || ucs[0].role == MEMBER;
      true
    else
      var b := ScanMemberOf(ucs[1..], c);
      assert forall i :: 1 <= i < |ucs| ==> ucs[i] == ucs[1..][i - 1];
      b
  }

  /** `user.isAdminOfCabin(cabinId)`: some association is cabin `c` with role ADMIN. */
  function IsAdminOfCabin(u: User, c: CabinId): (b: bool)
    ensures b <==> exists i :: 0 <= i < |u.cabins| && u.cabins[i].cabinId == c && u.cabins[i].role == ADMIN
    ensures b ==> IsMemberOfCabin(u, c)
  {
    var b := ScanAdminOf(u.cabins, c);
    assert b ==> u.cabins[IndexOf(u.cabins, UserCabin(c, ADMIN))].cabinId == c;
    b
  }

  /** `user.isMemberOfCabin(cabinId)`: some association is cabin `c`, whatever its role. */
  function IsMemberOfCabin(u: User, c: CabinId): (b: bool)
    ensures b <==> exists i :: 0 <= i < |u.cabins| && u.cabins[i].cabinId == c
    ensures b <==> UserCabin(c, ADMIN) in u.cabins || UserCabin(c, MEMBER) in u.cabins
  {
    ScanMemberOf(u.cabins, c)
  }

  /** Left-to-right scan for any ADMIN association, whichever the cabin (the `some`
      in the admin middleware). */
  function AnyAdminAssociation(ucs: seq<UserCabin>): (b: bool)
    ensures b <==> exists i :: 0 <= i < |ucs| && ucs[i].role == ADMIN
  {
    if ucs == [] then false
    else if ucs[0].role == ADMIN then true
    else
      var b := AnyAdminAssociation(ucs[1..]);
      assert forall i :: 1 <= i < |ucs| ==> ucs[i] == ucs[1..][i - 1];
      b
  }

  /** A cabin appears at most once among a user's associations. */
  ghost predicate UniqueCabins(ucs: seq<UserCabin>)
  {
    forall i, j :: 0 <= i < j < |ucs| ==> ucs[i].cabinId != ucs[j].cabinId
  }

  // ----- the array updates the resolvers issue on a user -----

  /** `$pull: { cabins: { cabinId } }`: every association with cabin `c` is removed. */
  function PullCabin(ucs: seq<UserCabin>, c: CabinId): (r: seq<UserCabin>)
    ensures forall uc :: uc in r <==> uc in ucs && uc.cabinId != c
    ensures UniqueCabins(ucs) ==> UniqueCabins(r)
  {
    if ucs == [] then []
    else
      var rest := PullCabin(ucs[1..], c);
      if ucs[0].cabinId == c then rest
      else
        [ucs[0]] + rest
  }

  /** `$set: { 'cabins.$[elem].role': role }` with the filter `elem.cabinId == c`. */
  function SetCabinRole(ucs: seq<UserCabin>, c: CabinId, role: CabinRole): (r: seq<UserCabin>)
    ensures |r| == |ucs|
    ensures forall i :: 0 <= i < |ucs| ==> r[i].cabinId == ucs[i].cabinId
    ensures forall i :: 0 <= i < |ucs| && ucs[i].cabinId == c ==> r[i].role == role
    ensures forall i :: 0 <= i < |ucs| && ucs[i].cabinId != c ==> r[i] == ucs[i]
    ensures UniqueCabins(ucs) ==> UniqueCabins(r)
  {
    if ucs == [] then []
    else
      var head := if ucs[0].cabinId == c then UserCabin(c, role) else ucs[0];
      var r := [head] + SetCabinRole(ucs[1..], c, role);
      assert forall i :: 0 <= i < |ucs| ==> r[i].cabinId == ucs[i].cabinId;
      r
  }

  /** `$set: { 'notifications.$[elem].read': true }` with the filter `elem._id == id`:
      the notifications carrying that id become read, nothing else changes. */
  function MarkRead(ns: seq<Notification>, id: nat): (r: seq<Notification>)
    ensures |r| == |ns|
    ensures forall i :: 0 <= i < |ns| ==> r[i] == ns[i].(read := ns[i].read || ns[i].id == id)
  {
    if ns == [] then []
    else
      var head := if ns[0].id == id then ns[0].(read := true) else ns[0];
      [head] + MarkRead(ns[1..], id)
  }

  /** `$set: { 'notifications.$[].read': true }`: every notification becomes read,
      and nothing but the flag changes. */
  function MarkAllRead(ns: seq<Notification>): (r: seq<Notification>)
    ensures |r| == |ns|
    ensures forall i :: 0 <= i < |ns| ==> r[i] == ns[i].(read := true)
  {
    if ns == [] then [] else [ns[0].(read := true)] + MarkAllRead(ns[1..])
  }

  /** Marking everything read twice is the same as once. */
  lemma {:induction false} MarkAllReadIdempotent(ns: seq<Notification>)
    ensures MarkAllRead(MarkAllRead(ns)) == MarkAllRead(ns)
    ensures forall i :: 0 <= i < |ns| ==> MarkAllRead(ns)[i].read
  {
    var once := MarkAllRead(ns);
    var twice := MarkAllRead(once);
    assert forall i :: 0 <= i < |ns| ==> twice[i] == once[i];
  }

  // ----- newest-first ordering, as `myNotifications` returns them -----

  /** Timestamps never increase along `ns`. */
  ghost predicate NewestFirst(ns: seq<Notification>)
  {
    forall i, j :: 0 <= i < j < |ns| ==> ns[i].createdAt >= ns[j].createdAt
  }

  /** Putting an entry at least as new as everything in a newest-first list in front keeps it newest first. */
  lemma PrependNewest(x: Notification, ns: seq<Notification>)
    requires NewestFirst(ns)
    requires forall k :: 0 <= k < |ns| ==> ns[k].createdAt <= x.createdAt
    ensures NewestFirst([x] + ns)
  {
    var r := [x] + ns;
    forall i, j | 0 <= i < j < |r| ensures r[i].createdAt >= r[j].createdAt {
      if i == 0 {
        assert r[j] == ns[j - 1];
      } else {
        assert r[i] == ns[i - 1] && r[j] == ns[j - 1];
      }
    }
  }

  /** Places `n` into a newest-first list, ahead of every entry that is not newer. */
  function InsertNewestFirst(n: Notification, ns: seq<Notification>): (r: seq<Notification>)
    requires NewestFirst(ns)
    ensures NewestFirst(r)
    ensures multiset(r) == multiset(ns) + multiset{n}
  {
    if ns == [] || ns[0].createdAt <= n.createdAt then
      PrependNewest(n, ns);
      [n] + ns
    else
      var rest := InsertNewestFirst(n, ns[1..]);
      assert ns == [ns[0]] + ns[1..];
      forall k | 0 <= k < |rest| ensures rest[k].createdAt <= ns[0].createdAt {
        var x := rest[k];
        assert x in multiset(rest);
        if x != n {
          assert x in multiset(ns[1..]);
          var m :| 0 <= m < |ns[1..]| && ns[1..][m] == x;
          assert ns[m + 1] == x;
        }
      }
      PrependNewest(ns[0], rest);
      [ns[0]] + rest
  }

  /** `notifications.sort((a, b) => b.createdAt - a.createdAt)`: the same
      notifications, newest first. */
  function SortNewestFirst(ns: seq<Notification>): (r: seq<Notification>)
    ensures NewestFirst(r)
    ensures multiset(r) == multiset(ns)
  {
    if ns == [] then []
    else
      assert ns == [ns[0]] + ns[1..];
      InsertNewestFirst(ns[0], SortNewestFirst(ns[1..]))
  }

  /** `$pull` drops every association with cabinId `c` and keeps every other one exactly as
      often as it was listed. */
  lemma {:induction false} PullCabinCount(ucs: seq<UserCabin>, c: CabinId, uc: UserCabin)
    ensures Count(PullCabin(ucs, c), uc) == if uc.cabinId == c then 0 else Count(ucs, uc)
  {
    if ucs != [] {
      PullCabinCount(ucs[1..], c, uc);
      var rest := PullCabin(ucs[1..], c);
      if ucs[0].cabinId != c {
        assert ([ucs[0]] + rest)[1..] == rest;
      }
    }
  }

  /** `$pull` works element by element, so it keeps the order of what it keeps: pulling
      from a concatenation is concatenating the pulled halves. */
  lemma {:induction false} PullCabinAppend(a: seq<UserCabin>, b: seq<UserCabin>, c: CabinId)
    ensures PullCabin(a + b, c) == PullCabin(a, c) + PullCabin(b, c)
  {
    if a == [] {
      assert a + b == b;
    } else {
      assert (a + b)[0] == a[0] && (a + b)[1..] == a[1..] + b;
      PullCabinAppend(a[1..], b, c);
    }
  }

  /** `$pull` of a cabinId that no association carries leaves the associations exactly as they were. */
  lemma {:induction false} PullCabinAbsent(ucs: seq<UserCabin>, c: CabinId)
    requires forall i :: 0 <= i < |ucs| ==> ucs[i].cabinId != c
    ensures PullCabin(ucs, c) == ucs
  {
    if ucs != [] {
      assert ucs[0].cabinId != c;
      forall i | 0 <= i < |ucs[1..]| ensures ucs[1..][i].cabinId != c {
        assert ucs[1..][i] == ucs[i + 1];
      }
      PullCabinAbsent(ucs[1..], c);
    }
  }

  /** Appending an association with a cabin not yet listed keeps associations unique. */
  lemma UniqueCabinsAppend(ucs: seq<UserCabin>, uc: UserCabin)
    requires UniqueCabins(ucs)
    requires forall i :: 0 <= i < |ucs| ==> ucs[i].cabinId != uc.cabinId
    ensures UniqueCabins(ucs + [uc])
  {
    var r := ucs + [uc];
    forall i, j | 0 <= i < j < |r| ensures r[i].cabinId != r[j].cabinId {
      if j < |ucs| {
        assert r[i] == ucs[i] && r[j] == ucs[j];
      } else {
        assert r[i] == ucs[i];
      }
    }
  }

  /** The associations the filtered role `$set` leaves: those with other cabins as they
      were, and for cabin `c` exactly the new role, provided `c` was listed at all. */
  lemma SetCabinRoleEntries(ucs: seq<UserCabin>, c: CabinId, to: CabinRole, d: CabinId, role: CabinRole)
    ensures UserCabin(d, role) in SetCabinRole(ucs, c, to) <==>
      if d == c then role == to && ScanMemberOf(ucs, c) else UserCabin(d, role) in ucs
  {
    var r := SetCabinRole(ucs, c, to);
    if UserCabin(d, role) in r {
      var k := IndexOf(r, UserCabin(d, role));
      assert ucs[k].cabinId == d;
    }
    if d == c && role == to && ScanMemberOf(ucs, c) {
      var k :| 0 <= k < |ucs| && ucs[k].cabinId == c;
      assert r[k] == UserCabin(c, to);
    }
    if d != c && UserCabin(d, role) in ucs {
      var k := IndexOf(ucs, UserCabin(d, role));
      assert r[k] == ucs[k];
    }
  }
}
