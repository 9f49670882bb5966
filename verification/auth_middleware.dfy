/** middleware/auth.js: signing a session token, pulling the bearer token
    out of the Authorization header, and the two gates every protected
    route passes: requireAuth (401) and requireRole (403). The JWT library
    is abstract: its sign and verify are function values, and what the
    proofs need of them is a predicate taken as a hypothesis. */
module AuthMiddleware {
  import opened Common
  import opened UserModel

  /** The payload the handlers see as req.user. The server signs only
      { id, role }; `handle` is the optional field the comment handler
      reads from it, absent from every token this server issues. */
  datatype Claims = Claims(id: UserId, role: Role, handle: Option<string>)

  /** The arguments of jwt.sign: payload and expiresIn. */
  datatype SessionToken = SessionToken(payload: Claims, expiresIn: string)

  const DefaultExpiry: string := "7d"

  /** jwt.sign and jwt.verify under JWT_SECRET. `verify` yields the payload,
      or nothing when the token is malformed, forged or expired. */
  datatype Jwt = Jwt(sign: SessionToken -> string, verify: string -> Option<Claims>)

  /** A token this server signed verifies to the payload it was signed with.
      `verify` has no clock here, so this speaks for tokens still within
      their `expiresIn`; an expired one verifies to nothing in the source. */
  ghost predicate VerifiesOwnTokens(j: Jwt) {
    forall t :: j.verify(j.sign(t)) == Some(t.payload)
  }

  /** signToken: the expiry is JWT_EXPIRES when it is set and non-empty, else seven days. */
  function SignToken(id: UserId, role: Role, jwtExpires: Option<string>): (t: SessionToken)
    ensures t.payload.id == id && t.payload.role == role && t.payload.handle.None?
    ensures Present(jwtExpires) ==> t.expiresIn == jwtExpires.value
    ensures !Present(jwtExpires) ==> t.expiresIn == DefaultExpiry
  {
    SessionToken(Claims(id, role, None), if Present(jwtExpires) then jwtExpires.value else DefaultExpiry)
  }

  const BearerPrefix: string := "Bearer "

  /** `auth.startsWith('Bearer ') ? auth.slice(7) : null`, with a missing
      header read as the empty string. */
  function BearerToken(header: Option<string>): (t: Option<string>)
    ensures var h := header.GetOr("");
      t.Some? <==> |h| >= |BearerPrefix| && h[..|BearerPrefix|] == BearerPrefix
    ensures t.Some? ==> header == Some(BearerPrefix + t.value)
  {
    var h := header.GetOr("");
    if |h| >= |BearerPrefix| && h[..|BearerPrefix|] == BearerPrefix then
      assert h == BearerPrefix + h[|BearerPrefix|..];
      Some(h[|BearerPrefix|..])
    else None
  }

  /** Whatever follows the prefix comes back out unchanged. */
  lemma BearerRoundTrip(token: string)
    ensures BearerToken(Some(BearerPrefix + token)) == Some(token)
  {
    assert (BearerPrefix + token)[..|BearerPrefix|] == BearerPrefix;
    assert (BearerPrefix + token)[|BearerPrefix|..] == token;
  }

  /** The prefix test is case- and space-sensitive: a lower-case "bearer"
      and any header shorter than the prefix (a bare "Bearer") carry no token. */
  lemma BearerCaseSensitive(token: string, short: string)
    requires |short| < |BearerPrefix|
    ensures BearerToken(Some("bearer " + token)) == None
    ensures BearerToken(Some(short)) == None
    ensures BearerToken(None) == None
    ensures BearerToken(Some(BearerPrefix)) == Some("")
  {
    assert ("bearer " + token)[0] == 'b';
    BearerRoundTrip("");
    assert BearerPrefix + "" == BearerPrefix;
  }

  /** What a gate does with the request: hand it on with the user, or answer it. */
  datatype Gate = Continue(user: Claims) | Reject(status: nat, message: string)

  /** requireAuth: no bearer token, or an empty one, is 401 "Unauthorized"
      before verification is tried; a token that does not verify is 401
      "Invalid token"; otherwise req.user is the decoded payload. */
  function RequireAuth(header: Option<string>, j: Jwt): (g: Gate)
    ensures (BearerToken(header).None? || BearerToken(header) == Some("")) ==> g == Reject(401, "Unauthorized")
    ensures g.Continue? <==> exists tok :: tok != "" && header == Some(BearerPrefix + tok) && j.verify(tok).Some?
    ensures g.Continue? ==> Some(g.user) == j.verify(BearerToken(header).value)
    ensures g.Reject? ==> g.status == 401
  {
    var token := BearerToken(header);
    if token.None? || token.value == "" then Reject(401, "Unauthorized")
    else
      match j.verify(token.value)
      case None => Reject(401, "Invalid token")
      case Some(claims) =>
        BearerRoundTrip(token.value);
        Continue(claims)
  }

  /** A missing or empty token is refused without consulting the verifier:
      the answer is the same whatever the JWT library would say. */
  lemma UnauthorizedWithoutVerify(header: Option<string>, j1: Jwt, j2: Jwt)
    requires BearerToken(header).None? || BearerToken(header) == Some("")
    ensures RequireAuth(header, j1) == RequireAuth(header, j2) == Reject(401, "Unauthorized")
  {
  }

  /** requireRole(...roles): 401 without a user, 403 "Forbidden" for a role
      outside the list, otherwise on to the handler. */
  function RequireRole(user: Option<Claims>, roles: seq<Role>): (g: Gate)
    ensures user.None? ==> g == Reject(401, "Unauthorized")
    ensures user.Some? && user.value.role !in roles ==> g == Reject(403, "Forbidden")
    ensures g.Continue? <==> user.Some? && user.value.role in roles
    ensures g.Continue? ==> g.user == user.value
  {
    if user.None? then Reject(401, "Unauthorized")
    else if user.value.role !in roles then Reject(403, "Forbidden")
    else Continue(user.value)
  }

  /** requireAuth followed by requireRole(...roles), as the routes chain them. */
  function Guarded(header: Option<string>, j: Jwt, roles: seq<Role>): Gate {
    match RequireAuth(header, j)
    case Reject(status, message) => Reject(status, message)
    case Continue(user) => RequireRole(Some(user), roles)
  }

  /** The chain lets a request through exactly when its bearer token
      verifies and the payload's role is listed; an authentication failure
      is always a 401, and a 403 only ever follows a token that verified. */
  lemma GuardedDecision(header: Option<string>, j: Jwt, roles: seq<Role>)
    ensures var g := Guarded(header, j, roles);
      && (g.Continue? <==> exists tok :: tok != "" && header == Some(BearerPrefix + tok)
                                        && j.verify(tok).Some? && j.verify(tok).value.role in roles)
      && (g.Continue? ==> Some(g.user) == j.verify(BearerToken(header).value))
      && (RequireAuth(header, j).Reject? ==> g.Reject? && g.status == 401)
      && (g == Reject(403, "Forbidden") <==> RequireAuth(header, j).Continue? && RequireAuth(header, j).user.role !in roles)
  {
    var g := Guarded(header, j, roles);
    if g.Continue? {
      var tok := BearerToken(header).value;
      BearerRoundTrip(tok);
      assert tok != "" && header == Some(BearerPrefix + tok) && j.verify(tok).Some? && j.verify(tok).value.role in roles;
    }
    if exists tok :: tok != "" && header == Some(BearerPrefix + tok) && j.verify(tok).Some? && j.verify(tok).value.role in roles {
      var tok :| tok != "" && header == Some(BearerPrefix + tok) && j.verify(tok).Some? && j.verify(tok).value.role in roles;
      BearerRoundTrip(tok);
    }
  }

  /** A token the server signed, sent back as "Bearer <token>", passes the
      chain exactly when the role it was signed with is listed, and the
      handler sees the id and role it was signed with. */
  lemma SignedTokenPasses(j: Jwt, t: SessionToken, roles: seq<Role>)
    requires VerifiesOwnTokens(j) && j.sign(t) != ""
    ensures var g := Guarded(Some(BearerPrefix + j.sign(t)), j, roles);
      && (g.Continue? <==> t.payload.role in roles)
      && (g.Continue? ==> g.user == t.payload)
      && (!g.Continue? ==> g == Reject(403, "Forbidden"))
  {
    BearerRoundTrip(j.sign(t));
  }
}
