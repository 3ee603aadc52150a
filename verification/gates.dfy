/**
 The three access gates that run before the handlers: `requireAuth` (a
 Bearer header and a parent role, case-insensitively), `requireAdmin` (a
 `token` cookie and exactly the role "admin") and `protect` / `restrictTo`
 (a header token, then membership of the role in a list).

 Token verification is a parameter. `Verdict` is what one call of it does:
 throw, or return a decoded payload that may be falsy (`None`).
 */
module Gates {
  import opened Common
  import opened Text

  /** The claims a decoded token carries; `generateToken` signs `id` and `role`. */
  datatype Claims = Claims(id: Option<string>, role: Option<string>)

  datatype Verdict = Threw | Returned(decoded: Option<Claims>)

  // ---------------------------------------------------------------------------
  // requireAuth
  // ---------------------------------------------------------------------------

  const BearerPrefix: string := "Bearer "
  const ParentRole: string := "parent"

  datatype AuthOutcome = AuthMissing | AuthForbidden | AuthPassed(user: Claims)
  {
    function Status(): nat {
      match this
      case AuthMissing => 401
      case AuthForbidden => 403
      case AuthPassed(_) => 200
    }
  }

  /**
   The role test of `requireAuth`: a missing role counts as "", and the
   comparison is made after lowercasing.
   */
  predicate ParentRoleMatches(role: Option<string>) {
    AsciiLower(OrElse(role, "")) == ParentRole
  }

  /**
   `requireAuth` with a token verifier. A header that is absent or does not
   start with "Bearer " is a 401; the token is the second space-separated
   segment; a throwing verifier, a falsy payload and a role other than
   "parent" (in any letter case) are each a 403. `next` runs only on
   `AuthPassed`, with the payload as `req.user`.
   */
  function RequireAuth(header: Option<string>, verify: string -> Verdict): (r: AuthOutcome)
    ensures r.AuthMissing? <==> header.None? || !StartsWith(header.value, BearerPrefix)
    ensures r.AuthPassed? <==>
      && header.Some? && StartsWith(header.value, BearerPrefix)
      && SecondSegment(header.value).Some?
      && verify(SecondSegment(header.value).value).Returned?
      && verify(SecondSegment(header.value).value).decoded.Some?
      && ParentRoleMatches(verify(SecondSegment(header.value).value).decoded.value.role)
    ensures r.AuthPassed? ==> r.user == verify(SecondSegment(header.value).value).decoded.value
  {
    if header.None? || !StartsWith(header.value, BearerPrefix) then AuthMissing
    else
      assert header.value[|BearerPrefix| - 1] == ' ';
      match verify(SecondSegment(header.value).value)
      case Threw => AuthForbidden
      case Returned(None) => AuthForbidden
      case Returned(Some(claims)) => if ParentRoleMatches(claims.role) then AuthPassed(claims) else AuthForbidden
  }

  /** The second space-separated segment of "Bearer " followed by a word is that word. */
  lemma BearerSegmentIsToken(token: string)
    requires ' ' !in token
    ensures SecondSegment(BearerPrefix + token) == Some(token)
  {
    assert BearerPrefix + token == "Bearer" + " " + token;
    SecondSegmentOfWords("Bearer", token, "");
    IndexOfAfterWord("Bearer", token);
  }

  /** The token `RequireAuth` hands to the verifier is the word after "Bearer ". */
  lemma RequireAuthReadsBearerToken(token: string, verify: string -> Verdict)
    requires ' ' !in token
    ensures RequireAuth(Some(BearerPrefix + token), verify).AuthPassed? <==>
      verify(token).Returned? && verify(token).decoded.Some? && ParentRoleMatches(verify(token).decoded.value.role)
  {
    BearerSegmentIsToken(token);
  }

  // ---------------------------------------------------------------------------
  // requireAdmin
  // ---------------------------------------------------------------------------

  const AdminRole: string := "admin"

  /** A redirect answers 302; a request that passes goes on to the handler. */
  datatype AdminOutcome = RedirectToLogin(clearsCookie: bool) | AdminPassed(user: Claims)
  {
    function Status(): nat {
      match this
      case RedirectToLogin(_) => 302
      case AdminPassed(_) => 200
    }
  }

  /**
   `requireAdmin` with a token verifier: no cookie redirects to the login page
   without touching the cookie; a throwing verifier, a falsy payload or a role
   that is not exactly "admin" clears the cookie and redirects.
   */
  function RequireAdmin(cookie: Option<string>, verify: string -> Verdict): (r: AdminOutcome)
    ensures r == RedirectToLogin(false) <==> !Truthy(cookie)
    ensures r.AdminPassed? <==>
      && Truthy(cookie) && verify(cookie.value).Returned? && verify(cookie.value).decoded.Some?
      && verify(cookie.value).decoded.value.role == Some(AdminRole)
    ensures r.AdminPassed? ==> r.user == verify(cookie.value).decoded.value
    ensures r.RedirectToLogin? && Truthy(cookie) ==> r.clearsCookie
  {
    if !Truthy(cookie) then RedirectToLogin(false)
    else match verify(cookie.value)
      case Threw => RedirectToLogin(true)
      case Returned(None) => RedirectToLogin(true)
      case Returned(Some(claims)) => if claims.role == Some(AdminRole) then AdminPassed(claims) else RedirectToLogin(true)
  }

  /**
   The two role checks differ: a token whose role is "Parent" passes the
   parent gate, while a token whose role is "Admin" does not pass the admin gate.
   */
  lemma RoleChecksDifferInCase(claims: Claims, verify: string -> Verdict, token: string)
    requires ' ' !in token && token != ""
    requires verify(token) == Returned(Some(claims))
    ensures claims.role == Some("Parent") ==> RequireAuth(Some(BearerPrefix + token), verify).AuthPassed?
    ensures claims.role == Some("Admin") ==> !RequireAdmin(Some(token), verify).AdminPassed?
  {
    RequireAuthReadsBearerToken(token, verify);
    if claims.role == Some("Parent") {
      assert AsciiLower("Parent") == "parent";
    }
  }

  // ---------------------------------------------------------------------------
  // protect, restrictTo
  // ---------------------------------------------------------------------------

  datatype ProtectOutcome = NotLoggedIn | BadToken | Protected(user: Option<Claims>)
  {
    function Status(): nat {
      match this
      case NotLoggedIn => 401
      case BadToken => 401
      case Protected(_) => 200
    }
  }

  /**
   `protect`: the token is the second space-separated segment of the header
   whatever its first word; no such segment, or an empty one, is a 401, and
   so is a verifier that throws. Whatever the verifier returns becomes
   `req.user`.
   */
  function Protect(header: Option<string>, verify: string -> Verdict): (r: ProtectOutcome)
    ensures r.NotLoggedIn? <==> header.None? || !Truthy(SecondSegment(header.value))
    ensures r.BadToken? <==> header.Some? && Truthy(SecondSegment(header.value)) && verify(SecondSegment(header.value).value).Threw?
    ensures r.Protected? ==>
      header.Some? && Truthy(SecondSegment(header.value)) && verify(SecondSegment(header.value).value) == Returned(r.user)
  {
    if header.None? then NotLoggedIn
    else
      var token := SecondSegment(header.value);
      if !Truthy(token) then NotLoggedIn
      else match verify(token.value)
        case Threw => BadToken
        case Returned(decoded) => Protected(decoded)
  }

  datatype RestrictOutcome = NoUser | RoleForbidden | RoleAllowed
  {
    function Status(): nat {
      match this
      case NoUser => 500
      case RoleForbidden => 403
      case RoleAllowed => 200
    }
  }

  /**
   `restrictTo(...roles)`: passes exactly when the caller's role is one of
   `roles`; a missing role is in no list. With no `req.user` at all, reading
   its role throws.
   */
  function RestrictTo(roles: seq<string>, user: Option<Claims>): (r: RestrictOutcome)
    ensures r.NoUser? <==> user.None?
    ensures r.RoleAllowed? <==> user.Some? && user.value.role.Some? && user.value.role.value in roles
  {
    if user.None? then NoUser
    else if user.value.role.Some? && user.value.role.value in roles then RoleAllowed
    else RoleForbidden
  }

  /**
   The two header gates read the same token. A request `requireAuth` lets
   through (with a non-empty token) passes `protect` with the same `req.user`;
   conversely a Bearer request that `protect` admits with a parent role passes
   `requireAuth`.
   */
  lemma RequireAuthAgreesWithProtect(header: Option<string>, verify: string -> Verdict)
    ensures RequireAuth(header, verify).AuthPassed? && SecondSegment(header.value) != Some("") ==>
      Protect(header, verify) == Protected(Some(RequireAuth(header, verify).user))
    ensures var p := Protect(header, verify);
      (header.Some? && StartsWith(header.value, BearerPrefix) && p.Protected? && p.user.Some? && ParentRoleMatches(p.user.value.role))
      ==> RequireAuth(header, verify) == AuthPassed(p.user.value)
  {
  }

  /**
   `protect` followed by `restrictTo('admin')` admits a Bearer token exactly
   when `requireAdmin` admits the same token as a cookie.
   */
  lemma RestrictToAdminMatchesRequireAdmin(token: string, verify: string -> Verdict)
    requires ' ' !in token && token != ""
    ensures (Protect(Some(BearerPrefix + token), verify).Protected?
             && RestrictTo([AdminRole], Protect(Some(BearerPrefix + token), verify).user).RoleAllowed?)
        <==> RequireAdmin(Some(token), verify).AdminPassed?
  {
    BearerSegmentIsToken(token);
  }

  /** Allowing more roles never shuts out a caller a shorter list admits. */
  lemma RestrictToIsMonotone(roles: seq<string>, more: seq<string>, user: Option<Claims>)
    requires forall x :: x in roles ==> x in more
    ensures RestrictTo(roles, user).RoleAllowed? ==> RestrictTo(more, user).RoleAllowed?
    ensures RestrictTo(more, user).RoleForbidden? ==> RestrictTo(roles, user).RoleForbidden?
  {
  }

  // ---------------------------------------------------------------------------
  // The gates as the files are written
  // ---------------------------------------------------------------------------

  /**
   `utils/token.js` exports only `generateToken`, so the `verifyToken` both
   gates destructure from it is `undefined` and calling it throws.
   */
  function UndefinedVerifier(token: string): (r: Verdict)
    ensures r.Threw?
  {
    Threw
  }

  /** As written, `requireAuth` never calls `next`: every Bearer request ends in a 403. */
  lemma RequireAuthAsWrittenRejectsAll(header: Option<string>)
    ensures !RequireAuth(header, UndefinedVerifier).AuthPassed?
    ensures header.Some? && StartsWith(header.value, BearerPrefix) ==> RequireAuth(header, UndefinedVerifier) == AuthForbidden
  {
  }

  /** As written, `requireAdmin` never calls `next`: every cookie is cleared and redirected. */
  lemma RequireAdminAsWrittenRejectsAll(cookie: Option<string>)
    ensures !RequireAdmin(cookie, UndefinedVerifier).AdminPassed?
    ensures Truthy(cookie) ==> RequireAdmin(cookie, UndefinedVerifier) == RedirectToLogin(true)
  {
  }

  /** With a verifier that accepts the token, a parent token does pass the corrected gate. */
  lemma RequireAuthAdmitsParent(token: string, id: string, verify: string -> Verdict)
    requires ' ' !in token
    requires verify(token) == Returned(Some(Claims(Some(id), Some(ParentRole))))
    ensures RequireAuth(Some(BearerPrefix + token), verify) == AuthPassed(Claims(Some(id), Some(ParentRole)))
  {
    RequireAuthReadsBearerToken(token, verify);
    assert AsciiLower(ParentRole) == ParentRole;
  }
}
