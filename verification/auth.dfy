/** The authentication middleware: where the bearer token is read from, what the
    signed payload carries, and the allow/deny decisions of `isAuthenticated` and
    `isAdmin`. Signature checking and expiry belong to the token library and are a
    `verify` parameter here: it yields the payload of a good token and nothing otherwise. */
module Auth {
  import opened Wrappers
  import opened Text
  import opened CabinModel
  import opened UserModel

  /** The `data` object inside a signed token. `cabins` is optional because a payload
      that lacks it must be handled by `isAdmin`. */
  datatype Payload = Payload(
    username: string,
    email: string,
    id: UserId,
    role: GlobalRole,
    cabins: Option<seq<UserCabin>>)

  /** `signToken(user)`: the payload is exactly username, email, id, global role and
      cabin associations, copied from the user at issue time. */
  function SignToken(id: UserId, u: User): (p: Payload)
    ensures p.id == id && p.username == u.username && p.email == u.email
    ensures p.role == u.role && p.cabins == Some(u.cabins)
  {
    Payload(u.username, u.email, id, u.role, Some(u.cabins))
  }

  /** JavaScript truthiness of an optional string: present and non-empty. */
  predicate Truthy(s: Option<string>)
  {
    s.Some? && s.value != ""
  }

  /** JavaScript `a || b` on optional strings. */
  function JsOr(a: Option<string>, b: Option<string>): (r: Option<string>)
    ensures Truthy(r) <==> Truthy(a) || Truthy(b)
    ensures Truthy(a) ==> r == a
    ensures !Truthy(a) ==> r == b
  {
    if Truthy(a) then a else b
  }

  /** `header.split(' ').pop().trim()`: no space survives, nor whitespace at either end. */
  function BearerToken(header: string): (t: string)
    ensures t == Trim(LastSegment(header))
    ensures ' ' !in t
    ensures t == [] || (!IsJsWhitespace(t[0]) && !IsJsWhitespace(t[|t| - 1]))
  {
    TrimKeepsNoSpace(LastSegment(header));
    Trim(LastSegment(header))
  }

  /** The token `authMiddleware` settles on: the first truthy of body token, query
      token and Authorization header; and when the header is truthy, whichever of
      them was chosen is cut down to its last space-separated segment and trimmed. */
  function RequestToken(body: Option<string>, query: Option<string>, header: Option<string>): (t: Option<string>)
    ensures !Truthy(header) && Truthy(body) ==> t == body
    ensures !Truthy(header) && !Truthy(body) && Truthy(query) ==> t == query
    ensures !Truthy(header) && !Truthy(body) && !Truthy(query) ==> !Truthy(t)
    ensures Truthy(header) ==> t.Some? && ' ' !in t.value
    ensures Truthy(header) && Truthy(body) ==> t.value == Trim(LastSegment(body.value))
    ensures Truthy(header) && !Truthy(body) && Truthy(query) ==> t.value == Trim(LastSegment(query.value))
    ensures Truthy(header) && !Truthy(body) && !Truthy(query) ==> t.value == Trim(LastSegment(header.value))
  {
    var raw := JsOr(body, JsOr(query, header));
    if Truthy(header) then Some(BearerToken(raw.value)) else raw
  }

  /** `authMiddleware`: the user placed in the request context. No token, or a token
      that fails verification, leaves the context without a user; nothing is thrown. */
  function AuthMiddleware(body: Option<string>, query: Option<string>, header: Option<string>,
                          verify: string -> Option<Payload>): (user: Option<Payload>)
    ensures !Truthy(RequestToken(body, query, header)) ==> user == None
    ensures Truthy(RequestToken(body, query, header)) ==> user == verify(RequestToken(body, query, header).value)
    ensures user.Some? ==> exists tok :: verify(tok) == user
  {
    var token := RequestToken(body, query, header);
    if !Truthy(token) then None else verify(token.value)
  }

  /** An Express middleware's outcome: pass the request on, or answer with a status code. */
  datatype Verdict = Next(user: Option<Payload>) | Respond(status: int)

  /** `isAuthenticated`: the token is read from the Authorization header only
      (`header?.split(' ').pop().trim()`); a missing or empty token, or one that fails
      verification, is answered with 401. */
  function IsAuthenticated(header: Option<string>, verify: string -> Option<Payload>): (v: Verdict)
    ensures v.Respond? ==> v.status == 401
    ensures v.Next? <==> header.Some? && BearerToken(header.value) != "" && verify(BearerToken(header.value)).Some?
    ensures v.Next? ==> v.user == verify(BearerToken(header.value))
  {
    var token := if header.Some? then Some(BearerToken(header.value)) else None;
    if !Truthy(token) then Respond(401)
    else
      match verify(token.value)
      case None => Respond(401)
      case Some(data) => Next(Some(data))
  }

  /** The condition under which `isAdmin` lets a user through: a global admin, or a
      payload whose cabin snapshot holds at least one ADMIN association, whichever cabin. */
  predicate AdminPrivileges(p: Payload)
  {
    p.role == GLOBAL_ADMIN || (p.cabins.Some? && AnyAdminAssociation(p.cabins.value))
  }

  /** `isAdmin`: 401 without an authenticated user, 403 for a user without admin
      privileges (including a payload that has no `cabins`), otherwise pass on. */
  function IsAdminMiddleware(user: Option<Payload>): (v: Verdict)
    ensures v == Respond(401) <==> user.None?
    ensures v == Respond(403) <==>
      (user.Some? && user.value.role != GLOBAL_ADMIN
       && (user.value.cabins.None? || forall i :: 0 <= i < |user.value.cabins.value| ==> user.value.cabins.value[i].role != ADMIN))
    ensures v.Next? <==>
      (user.Some? && (user.value.role == GLOBAL_ADMIN
       || (user.value.cabins.Some? && exists i :: 0 <= i < |user.value.cabins.value| && user.value.cabins.value[i].role == ADMIN)))
    ensures v.Next? ==> v.user == user
  {
    if user.None? then Respond(401)
    else if !AdminPrivileges(user.value) then Respond(403)
    else Next(user)
  }

  /** The bearer form of the header yields the bare token: for `"Bearer abc"` the
      token is `"abc"`. */
  lemma BearerHeaderYieldsToken(scheme: string, t: string)
    requires t != [] && ' ' !in t && !IsJsWhitespace(t[0]) && !IsJsWhitespace(t[|t| - 1])
    ensures RequestToken(None, None, Some(scheme + " " + t)) == Some(t)
  {
    LastSegmentOfSpaceSeparated(scheme + " ", t);
    assert scheme + " " + t == (scheme + " ") + t;
    TrimOfTrimmed(t);
  }

  /** `isAuthenticated` on a header "scheme token": the caller passes with the payload
      `verify` yields for the token, and is answered 401 when the token does not verify. */
  lemma IsAuthenticatedOnBearer(scheme: string, t: string, verify: string -> Option<Payload>)
    requires t != [] && ' ' !in t && !IsJsWhitespace(t[0]) && !IsJsWhitespace(t[|t| - 1])
    ensures IsAuthenticated(Some(scheme + " " + t), verify)
      == if verify(t).Some? then Next(verify(t)) else Respond(401)
  {
    BearerHeaderYieldsToken(scheme, t);
    assert BearerToken(scheme + " " + t) == t;
  }

  /** `authMiddleware` with only a header "scheme token": the context user is whatever
      `verify` yields for the token. */
  lemma AuthMiddlewareOnBearer(scheme: string, t: string, verify: string -> Option<Payload>)
    requires t != [] && ' ' !in t && !IsJsWhitespace(t[0]) && !IsJsWhitespace(t[|t| - 1])
    ensures AuthMiddleware(None, None, Some(scheme + " " + t), verify) == verify(t)
  {
    BearerHeaderYieldsToken(scheme, t);
  }

  /** The example from the middleware's comment. */
  lemma BearerAbc()
    ensures RequestToken(None, None, Some("Bearer abc")) == Some("abc")
  {
    assert LastSegment("Bearer abc") == "abc" by {
      assert "Bearer abc" == "Bearer " + "abc";
      assert "abc" == ['a', 'b', 'c'];
      LastSegmentOfSpaceSeparated("Bearer ", "abc");
    }
    assert Trim("abc") == "abc" by {
      assert "abc" == ['a', 'b', 'c'];
      TrimOfTrimmed("abc");
    }
    assert BearerToken("Bearer abc") == "abc";
  }

  /** When an Authorization header is present, even a token sent in the body is cut at
      its last space: the body token "x y" becomes "y". */
  lemma BodyTokenCutWhenHeaderPresent()
    ensures RequestToken(Some("x y"), None, Some("Bearer abc")) == Some("y")
  {
    assert BearerToken("x y") == "y" by {
      assert LastSegment("x y") == "y" by {
        assert "x y" == "x " + "y";
        assert "y" == ['y'];
        LastSegmentOfSpaceSeparated("x ", "y");
      }
      assert Trim("y") == "y" by {
        assert "y" == ['y'];
        TrimOfTrimmed("y");
      }
    }
  }

  /** For a freshly signed token, the admin gate allows exactly the global admins and
      the users administering at least one cabin at signing time. */
  lemma AdminGateOnSignedToken(id: UserId, u: User)
    ensures IsAdminMiddleware(Some(SignToken(id, u))).Next?
      <==> u.role == GLOBAL_ADMIN || exists c :: IsAdminOfCabin(u, c)
  {
    if AnyAdminAssociation(u.cabins) {
      var i :| 0 <= i < |u.cabins| && u.cabins[i].role == ADMIN;
      assert IsAdminOfCabin(u, u.cabins[i].cabinId);
    }
  }
}
