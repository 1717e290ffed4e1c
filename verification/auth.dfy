/**
  The authentication and authorization middleware. `Authenticate` picks a
  bearer token (the `jid` cookie, else the second space-separated piece of
  the `Authorization` header), hands it to the token verifier and attaches
  the decoded claim. `AuthorizeRoles` admits a request when one of the
  claim's roles is both in the route's allowed list and granted, by the
  permission table, the lower-cased HTTP method on the last segment of the
  mount path.
 */
module Auth {
  import opened Wrappers
  import opened Strings
  import opened Rbac
  import opened JsValues

  /** The decoded token payload. `roles` is `None` when the payload's
      `roles` field is missing or not an array. */
  datatype Claim = Claim(sub: string, roles: Option<seq<string>>)

  /** The parts of an Express request the middleware reads or writes. */
  datatype Request = Request(
    verb: string,
    baseUrl: string,
    jid: Option<string>,
    authorization: Option<string>,
    user: Option<Claim>)

  /** What a middleware does with a request: pass it on (calling `next`
      once), answer it with an error status, or throw (the framework then
      hands the exception to the error handler). */
  datatype Outcome = Next(req: Request) | Respond(status: int, error: string) | Throw

  /** The token verifier (`jwt.verify`): a function of the token, the
      shared secret and the current time; `None` covers a bad signature, a
      malformed token and an expired one alike. */
  type Verifier = (string, string, int) -> Option<Claim>

  const AuthenticationRequired := "Authentication required"
  const InvalidOrExpired := "Invalid or expired token"
  const Forbidden := "Forbidden"

  /** The bearer token carried by an `Authorization` header: the second
      piece when the header is split at spaces, that is the text between
      the first space and the next one (or the end); nothing when the
      header is absent or has no space. The scheme word is not checked. */
  function BearerToken(authorization: Option<string>): (t: Option<string>)
    ensures authorization.None? ==> t.None?
    ensures authorization.Some? && IndexOf(authorization.value, ' ') == |authorization.value| ==> t.None?
    ensures authorization.Some? && IndexOf(authorization.value, ' ') < |authorization.value| ==>
      var h := authorization.value;
      var rest := h[IndexOf(h, ' ') + 1..];
      t == Some(rest[..IndexOf(rest, ' ')])
  {
    match authorization
    case None => None
    case Some(h) => SecondPieceShape(h); SecondPiece(h)
  }

  /** The piece at index 1 of a split at spaces, if there is one. */
  function SecondPiece(h: string): Option<string>
  {
    var parts := Split(h, ' ');
    if |parts| >= 2 then Some(parts[1]) else None
  }

  /** The second piece, located through the first two spaces. */
  lemma SecondPieceShape(h: string)
    ensures IndexOf(h, ' ') == |h| ==> SecondPiece(h).None?
    ensures IndexOf(h, ' ') < |h| ==>
      var rest := h[IndexOf(h, ' ') + 1..];
      SecondPiece(h) == Some(rest[..IndexOf(rest, ' ')])
  {
    SplitAtFirst(h, ' ');
    if IndexOf(h, ' ') < |h| {
      SplitHead(h[IndexOf(h, ' ') + 1..], ' ');
    }
  }

  /** The token `authenticate` goes on with: the `jid` cookie when it is
      truthy, otherwise whatever the `Authorization` header carries. */
  function PresentedToken(req: Request): (t: Option<string>)
    ensures req.jid.Some? && req.jid.value != "" ==> t == req.jid
    ensures !(req.jid.Some? && req.jid.value != "") ==> t == BearerToken(req.authorization)
  {
    if req.jid.Some? && req.jid.value != "" then req.jid else BearerToken(req.authorization)
  }

  /** Whether the presented token is truthy. */
  predicate HasToken(req: Request) {
    PresentedToken(req).Some? && PresentedToken(req).value != ""
  }

  /** The `authenticate` middleware. */
  function Authenticate(req: Request, secret: string, now: int, verify: Verifier): (r: Outcome)
    ensures !r.Throw?
    ensures r.Respond? ==> r.status == 401
    ensures r == Respond(401, AuthenticationRequired) <==> !HasToken(req)
    ensures r == Respond(401, InvalidOrExpired) <==>
      HasToken(req) && verify(PresentedToken(req).value, secret, now).None?
    ensures r.Next? <==> HasToken(req) && verify(PresentedToken(req).value, secret, now).Some?
    ensures r.Next? ==> r.req.user == verify(PresentedToken(req).value, secret, now)
    ensures r.Next? ==> r.req == req.(user := r.req.user)
  {
    var token := PresentedToken(req);
    if token.None? || token.value == "" then Respond(401, AuthenticationRequired)
    else
      match verify(token.value, secret, now)
      case None => Respond(401, InvalidOrExpired)
      case Some(decoded) => Next(req.(user := Some(decoded)))
  }

  /** A request whose cookie is truthy is judged on the cookie alone: the
      `Authorization` header is never looked at. */
  lemma CookieShadowsHeader(req: Request, header: Option<string>, secret: string, now: int, verify: Verifier)
    requires req.jid.Some? && req.jid.value != ""
    ensures PresentedToken(req.(authorization := header)) == PresentedToken(req)
    ensures Authenticate(req.(authorization := header), secret, now, verify) ==
      match Authenticate(req, secret, now, verify)
      case Next(r) => Next(r.(authorization := header))
      case other => other
  {
    assert PresentedToken(req.(authorization := header)) == PresentedToken(req);
  }

  /** Without a token the verifier is never consulted. */
  lemma NoTokenSkipsVerifier(req: Request, secret: string, now: int, v1: Verifier, v2: Verifier)
    requires !HasToken(req)
    ensures Authenticate(req, secret, now, v1) == Authenticate(req, secret, now, v2)
  {
  }

  /** Every verification failure looks the same to the client, whatever the
      token and whatever the reason the verifier rejected it. */
  lemma VerificationFailuresIndistinguishable(
    req1: Request, req2: Request, secret: string, now1: int, now2: int, verify: Verifier)
    requires HasToken(req1) && verify(PresentedToken(req1).value, secret, now1).None?
    requires HasToken(req2) && verify(PresentedToken(req2).value, secret, now2).None?
    ensures Authenticate(req1, secret, now1, verify) == Authenticate(req2, secret, now2, verify)
  {
  }

  /** Some role of the user is both allowed by the route and granted the
      action on the resource by the table. */
  ghost predicate Permits(roles: seq<string>, allowed: seq<string>, resource: string, action: string) {
    exists role :: role in roles && role in allowed && Can(role, resource, action)
  }

  /** A role whose table lookup throws: the route allows it and it names a
      member every object inherits, so the lookup finds no entry list. */
  predicate ThrowingRole(role: string, allowed: seq<string>) {
    role in allowed && role in ObjectPrototypeNames
  }

  /** Some role of the user would make the table lookup throw. */
  ghost predicate InheritedAllowedRole(roles: seq<string>, allowed: seq<string>) {
    exists role :: role in roles && ThrowingRole(role, allowed)
  }

  /** The scan over the user's roles in order: it stops with true at the
      first role that the route allows and the table grants, ends with an
      exception when the lookup of an allowed role throws first, and is
      false when no role qualifies. */
  function ScanRoles(roles: seq<string>, allowed: seq<string>, resource: string, action: string): (r: Result<bool, TypeError>)
    ensures r == Ok(true) ==> Permits(roles, allowed, resource, action)
    ensures r == Ok(false) ==> !Permits(roles, allowed, resource, action)
    ensures r.Err? ==> InheritedAllowedRole(roles, allowed)
    ensures !InheritedAllowedRole(roles, allowed) ==> r == Ok(Permits(roles, allowed, resource, action))
    ensures !Permits(roles, allowed, resource, action) && InheritedAllowedRole(roles, allowed) ==> r.Err?
  {
    if |roles| == 0 then Ok(false)
    else
      assert forall x :: x in roles[1..] ==> x in roles;
      assert forall x :: x in roles ==> x == roles[0] || x in roles[1..];
      var rest := ScanRoles(roles[1..], allowed, resource, action);
      if roles[0] !in allowed then rest
      else
        match CanAsWritten(roles[0], resource, action)
        case Err(e) => assert ThrowingRole(roles[0], allowed); Err(e)
        case Ok(granted) => if granted then Ok(true) else rest
  }

  /** The resource a request is checked against: the last `/`-segment of
      its mount path, so it contains no `/` and ends the path. */
  function Resource(req: Request): (r: string)
    ensures '/' !in r
    ensures |r| <= |req.baseUrl| && r == req.baseUrl[|req.baseUrl| - |r|..]
    ensures |r| < |req.baseUrl| ==> req.baseUrl[|req.baseUrl| - |r| - 1] == '/'
  {
    LastSegment(req.baseUrl)
  }

  /** The action a request is checked against: its method, lower-cased
      letter by letter, not mapped to a create/read/update name. */
  function Action(req: Request): (a: string)
    ensures |a| == |req.verb|
    ensures forall i :: 0 <= i < |a| ==> a[i] == ToLowerChar(req.verb[i])
  {
    ToLower(req.verb)
  }

  /** The middleware `authorizeRoles(...allowed)` returns. */
  function AuthorizeRoles(allowed: seq<string>, req: Request): (r: Outcome)
    ensures req.user.None? ==> r == Respond(401, AuthenticationRequired)
    ensures req.user.Some? && req.user.value.roles.None? ==> r.Throw?
    ensures r.Next? ==> r.req == req
    ensures r.Next? ==>
      req.user.Some? && req.user.value.roles.Some? &&
      Permits(req.user.value.roles.value, allowed, Resource(req), Action(req))
    ensures (req.user.Some? && req.user.value.roles.Some? &&
             !Permits(req.user.value.roles.value, allowed, Resource(req), Action(req))) ==>
      r == if InheritedAllowedRole(req.user.value.roles.value, allowed) then Throw else Respond(403, Forbidden)
    ensures (req.user.Some? && req.user.value.roles.Some? &&
             Permits(req.user.value.roles.value, allowed, Resource(req), Action(req))) ==>
      r.Next? || r.Throw?
    ensures (req.user.Some? && req.user.value.roles.Some? &&
             !InheritedAllowedRole(req.user.value.roles.value, allowed)) ==>
      r == if Permits(req.user.value.roles.value, allowed, Resource(req), Action(req)) then Next(req)
           else Respond(403, Forbidden)
    ensures r.Throw? ==>
      req.user.Some? && (req.user.value.roles.None? || InheritedAllowedRole(req.user.value.roles.value, allowed))
    ensures r.Respond? ==> r == Respond(403, Forbidden) || (req.user.None? && r == Respond(401, AuthenticationRequired))
  {
    match req.user
    case None => Respond(401, AuthenticationRequired)
    case Some(claim) =>
      match claim.roles
      case None => Throw
      case Some(roles) =>
        match ScanRoles(roles, allowed, Resource(req), Action(req))
        case Err(_) => Throw
        case Ok(permitted) => if permitted then Next(req) else Respond(403, Forbidden)
  }

  /** The discrepancy of the table lookup seen through the middleware: a
      route that allows a role named `toString` throws for a user holding
      it first, even when a later role would be admitted. */
  lemma InheritedAllowedRoleThrows(req: Request)
    requires req.user.Some? && req.user.value.roles == Some(["toString", "admin"])
    ensures AuthorizeRoles(["toString", "admin"], req) == Throw
  {
  }

  /** The routes of the admin and audit routers allow only `admin` and
      `auditor`; with allowed roles drawn from those and `user`, the
      middleware never throws on a roles array and admits exactly when some
      role is allowed and granted. */
  lemma RouteAllowedListsDecideByTable(allowed: seq<string>, req: Request)
    requires forall a :: a in allowed ==> a == "admin" || a == "auditor" || a == "user"
    requires req.user.Some? && req.user.value.roles.Some?
    ensures !AuthorizeRoles(allowed, req).Throw?
    ensures AuthorizeRoles(allowed, req).Next? <==>
      Permits(req.user.value.roles.value, allowed, Resource(req), Action(req))
  {
    assert !InheritedAllowedRole(req.user.value.roles.value, allowed);
  }

  /** The claim of `req` with its roles replaced. */
  function WithRoles(req: Request, roles: seq<string>): Request
    requires req.user.Some?
  {
    req.(user := Some(req.user.value.(roles := Some(roles))))
  }

  /** Granting the user more roles, or the route more allowed roles, never
      turns an admitted request into a refused one, as long as no added
      role makes the table lookup throw. */
  lemma AuthorizeMonotone(
    allowed: seq<string>, allowed': seq<string>, req: Request, roles: seq<string>, roles': seq<string>)
    requires req.user.Some?
    requires forall r :: r in roles ==> r in roles'
    requires forall r :: r in allowed ==> r in allowed'
    requires !InheritedAllowedRole(roles', allowed')
    ensures AuthorizeRoles(allowed, WithRoles(req, roles)).Next? ==>
      AuthorizeRoles(allowed', WithRoles(req, roles')).Next?
  {
    var small := WithRoles(req, roles);
    var big := WithRoles(req, roles');
    if AuthorizeRoles(allowed, small).Next? {
      assert Permits(roles, allowed, Resource(small), Action(small));
      var role :| role in roles && role in allowed && Can(role, Resource(small), Action(small));
      assert role in roles' && role in allowed';
      assert Permits(roles', allowed', Resource(big), Action(big));
    }
  }

  /** Without any condition on the added roles: granting more roles, or
      allowing more, never turns an admitted request into a 403; at worst
      the lookup of an added inherited member name throws first. */
  lemma AuthorizeMonotoneOrThrows(
    allowed: seq<string>, allowed': seq<string>, req: Request, roles: seq<string>, roles': seq<string>)
    requires req.user.Some?
    requires forall r :: r in roles ==> r in roles'
    requires forall r :: r in allowed ==> r in allowed'
    ensures AuthorizeRoles(allowed, WithRoles(req, roles)).Next? ==>
      AuthorizeRoles(allowed', WithRoles(req, roles')).Next? ||
      (AuthorizeRoles(allowed', WithRoles(req, roles')).Throw? && InheritedAllowedRole(roles', allowed'))
  {
    var small := WithRoles(req, roles);
    var big := WithRoles(req, roles');
    if AuthorizeRoles(allowed, small).Next? {
      assert Permits(roles, allowed, Resource(small), Action(small));
      var role :| role in roles && role in allowed && Can(role, Resource(small), Action(small));
      assert role in roles' && role in allowed';
      assert Permits(roles', allowed', Resource(big), Action(big));
    }
  }

  /** A user without roles is always refused with 403. */
  lemma EmptyRolesForbidden(allowed: seq<string>, req: Request)
    requires req.user.Some? && req.user.value.roles == Some([])
    ensures AuthorizeRoles(allowed, req) == Respond(403, Forbidden)
  {
  }

  /** The methods the service's CORS configuration admits, plus HEAD and OPTIONS. */
  const KnownMethods: set<string> := {"GET", "HEAD", "POST", "PUT", "PATCH", "DELETE", "OPTIONS"}

  /** Of the known methods only DELETE lower-cases to an action the table
      mentions. */
  lemma OnlyDeleteIsATableAction(m: string)
    requires m in KnownMethods
    ensures ToLower(m) in TableActions <==> m == "DELETE"
  {
    if m == "DELETE" {
      assert ToLower(m) == "delete";
    } else if m == "HEAD" {
      assert ToLower(m)[0] == 'h';
    } else if m == "POST" {
      assert ToLower(m)[0] == 'p';
    } else if m == "PATCH" {
      assert ToLower(m)[0] == 'p';
    } else {
      assert |ToLower(m)| == 3 || |ToLower(m)| == 7;
    }
  }

  /** Because the method name, not a create/read/update action, is what
      the table is asked about, no request with a known method other than
      DELETE is ever admitted, whatever the user's roles. */
  lemma OnlyDeleteIsEverAdmitted(allowed: seq<string>, req: Request)
    requires req.verb in KnownMethods
    ensures AuthorizeRoles(allowed, req).Next? ==> req.verb == "DELETE"
  {
    if AuthorizeRoles(allowed, req).Next? {
      var roles := req.user.value.roles.value;
      var role :| role in roles && role in allowed && Can(role, Resource(req), Action(req));
      GrantedActionIsTableAction(role, Resource(req), Action(req));
      OnlyDeleteIsATableAction(req.verb);
    }
  }

  /** A mount path that is empty or ends in `/` yields the empty resource,
      which no table entry names, so every such request is refused. */
  lemma EmptyResourceRefused(allowed: seq<string>, req: Request)
    requires req.baseUrl == "" || req.baseUrl[|req.baseUrl| - 1] == '/'
    ensures !AuthorizeRoles(allowed, req).Next?
  {
    EmptyLastSegment(req);
    var r := AuthorizeRoles(allowed, req);
    if r.Next? {
      var roles := req.user.value.roles.value;
      assert Permits(roles, allowed, Resource(req), Action(req));
      NothingGrantedOnEmptyResource(roles, allowed, Action(req));
    }
  }

  /** The last segment of an empty path, or of one ending in `/`, is empty. */
  lemma EmptyLastSegment(req: Request)
    requires req.baseUrl == "" || req.baseUrl[|req.baseUrl| - 1] == '/'
    ensures Resource(req) == ""
  {
  }

  /** The table grants nothing on the empty resource. */
  lemma NothingGrantedOnEmptyResource(roles: seq<string>, allowed: seq<string>, action: string)
    ensures !Permits(roles, allowed, "", action)
  {
    if Permits(roles, allowed, "", action) {
      var role :| role in roles && role in allowed && Can(role, "", action);
      CanIsGranted(role, "", action);
    }
  }

  /** Both middlewares in sequence, as a protected route mounts them. */
  function Protect(allowed: seq<string>, req: Request, secret: string, now: int, verify: Verifier): (r: Outcome)
    ensures r.Next? ==>
      HasToken(req) &&
      var c := verify(PresentedToken(req).value, secret, now);
      c.Some? && c.value.roles.Some? && Permits(c.value.roles.value, allowed, Resource(req), Action(req)) &&
      r.req == req.(user := c)
    ensures HasToken(req) ==>
      var c := verify(PresentedToken(req).value, secret, now);
      c.Some? && c.value.roles.Some? && !InheritedAllowedRole(c.value.roles.value, allowed) ==>
        (r.Next? <==> Permits(c.value.roles.value, allowed, Resource(req), Action(req)))
    ensures HasToken(req) ==>
      var c := verify(PresentedToken(req).value, secret, now);
      c.Some? && c.value.roles.Some? && !Permits(c.value.roles.value, allowed, Resource(req), Action(req)) ==>
        r == if InheritedAllowedRole(c.value.roles.value, allowed) then Throw else Respond(403, Forbidden)
    ensures HasToken(req) ==>
      var c := verify(PresentedToken(req).value, secret, now);
      c.Some? && c.value.roles.Some? && Permits(c.value.roles.value, allowed, Resource(req), Action(req)) ==>
        r.Next? || r.Throw?
    ensures r.Throw? ==>
      HasToken(req) &&
      var c := verify(PresentedToken(req).value, secret, now);
      c.Some? && (c.value.roles.None? || InheritedAllowedRole(c.value.roles.value, allowed))
  {
    match Authenticate(req, secret, now, verify)
    case Next(authenticated) =>
      assert Resource(authenticated) == Resource(req) && Action(authenticated) == Action(req);
      AuthorizeRoles(allowed, authenticated)
    case other => other
  }

  /** A token the verifier rejects (expired, forged, malformed) is answered
      with 401 before the route's roles are looked at. */
  lemma RejectedTokenStopsBeforeAuthorization(
    allowed: seq<string>, req: Request, secret: string, now: int, verify: Verifier)
    requires HasToken(req) && verify(PresentedToken(req).value, secret, now).None?
    ensures Protect(allowed, req, secret, now, verify) == Respond(401, InvalidOrExpired)
  {
  }

  /** A request with no credential at all is answered with 401. */
  lemma MissingTokenStopsBeforeAuthorization(
    allowed: seq<string>, req: Request, secret: string, now: int, verify: Verifier)
    requires req.jid.None? && req.authorization.None?
    ensures Protect(allowed, req, secret, now, verify) == Respond(401, AuthenticationRequired)
  {
  }

  /** A valid `user` token reading books with GET is refused: the table is
      asked about action `get`, which it never lists. */
  lemma UserGetBooksRefused(req: Request, secret: string, now: int, verify: Verifier)
    requires req.verb == "GET" && req.baseUrl == "/v1/books"
    requires HasToken(req) && verify(PresentedToken(req).value, secret, now) == Some(Claim("u1", Some(["user"])))
    ensures Protect(["user", "admin"], req, secret, now, verify) == Respond(403, Forbidden)
  {
    OnlyDeleteIsEverAdmitted(["user", "admin"], req.(user := Some(Claim("u1", Some(["user"])))));
  }

  /** An admin token deleting on the users mount is admitted. */
  lemma AdminDeleteUsersAdmitted(req: Request, secret: string, now: int, verify: Verifier)
    requires req.verb == "DELETE" && req.baseUrl == "/v1/users"
    requires HasToken(req) && verify(PresentedToken(req).value, secret, now) == Some(Claim("a1", Some(["admin"])))
    ensures Protect(["admin", "user"], req, secret, now, verify).Next?
  {
    var authed := req.(user := Some(Claim("a1", Some(["admin"]))));
    var allowed := ["admin", "user"];
    UsersDeleteTarget(authed);
    AdminDeletesUsersUserDoesNot();
    OrdinaryTableRoles();
    assert "admin" in allowed && Can("admin", Resource(authed), Action(authed));
    SingleRoleDecides("admin", allowed, authed);
    ProtectAfterVerification(allowed, req, secret, now, verify);
  }

  /** The same request carrying a plain `user` token is refused with 403. */
  lemma UserDeleteUsersRefused(req: Request, secret: string, now: int, verify: Verifier)
    requires req.verb == "DELETE" && req.baseUrl == "/v1/users"
    requires HasToken(req) && verify(PresentedToken(req).value, secret, now) == Some(Claim("u1", Some(["user"])))
    ensures Protect(["admin", "user"], req, secret, now, verify) == Respond(403, Forbidden)
  {
    var authed := req.(user := Some(Claim("u1", Some(["user"]))));
    var allowed := ["admin", "user"];
    UsersDeleteTarget(authed);
    AdminDeletesUsersUserDoesNot();
    OrdinaryTableRoles();
    assert !Can("user", Resource(authed), Action(authed));
    SingleRoleDecides("user", allowed, authed);
    ProtectAfterVerification(allowed, req, secret, now, verify);
  }

  /** None of the four roles of the table is a name every object inherits. */
  lemma OrdinaryTableRoles()
    ensures "admin" !in ObjectPrototypeNames && "user" !in ObjectPrototypeNames
    ensures "auditor" !in ObjectPrototypeNames && "guest" !in ObjectPrototypeNames
  {
  }

  /** DELETE on the users mount asks the table about `delete` on `users`. */
  lemma UsersDeleteTarget(req: Request)
    requires req.verb == "DELETE" && req.baseUrl == "/v1/users"
    ensures Resource(req) == "users" && Action(req) == "delete"
  {
    UsersMount();
  }

  /** Once the token verifies, the pair of middlewares decides as
      `authorizeRoles` does on the request carrying the decoded claim. */
  lemma ProtectAfterVerification(allowed: seq<string>, req: Request, secret: string, now: int, verify: Verifier)
    requires HasToken(req) && verify(PresentedToken(req).value, secret, now).Some?
    ensures Protect(allowed, req, secret, now, verify) ==
      AuthorizeRoles(allowed, req.(user := verify(PresentedToken(req).value, secret, now)))
  {
  }

  /** A user holding one ordinary role is admitted exactly when the route
      allows that role and the table grants it. */
  lemma SingleRoleDecides(role: string, allowed: seq<string>, req: Request)
    requires role !in ObjectPrototypeNames
    requires req.user.Some? && req.user.value.roles == Some([role])
    ensures AuthorizeRoles(allowed, req) ==
      if role in allowed && Can(role, Resource(req), Action(req)) then Next(req) else Respond(403, Forbidden)
  {
    PermitsSingleRole(role, allowed, Resource(req), Action(req));
    SingleOrdinaryRole(role, allowed);
  }

  /** A single role that is no inherited member name cannot make the lookup throw. */
  lemma SingleOrdinaryRole(role: string, allowed: seq<string>)
    requires role !in ObjectPrototypeNames
    ensures !InheritedAllowedRole([role], allowed)
  {
  }

  /** With one role, some role qualifies exactly when that role does. */
  lemma PermitsSingleRole(role: string, allowed: seq<string>, resource: string, action: string)
    ensures Permits([role], allowed, resource, action) <==> role in allowed && Can(role, resource, action)
  {
    if Permits([role], allowed, resource, action) {
      var r :| r in [role] && r in allowed && Can(r, resource, action);
      assert r == role;
    }
  }

  /** The users mount path ends in the segment `users`. */
  lemma UsersMount()
    ensures LastSegment("/v1/users") == "users"
  {
    var parts := ["", "v1", "users"];
    assert Join(parts, '/') == "/v1/users";
    SplitJoin(parts, '/');
  }
}
