/** controllers/authController.js: signup, login, e-mail verification,
    resending the verification mail, and the admin-only creation of a
    subadmin. Each handler is a step function from the users collection
    before the request to the collection after it, the reply, and the mail
    it sends; the methods at the end perform the same steps on a
    UserCollection, field by field, as the handlers do on the fetched
    document. */
module AuthController {
  import opened Common
  import opened Crypto
  import opened UserModel
  import opened UserStore
  import opened AuthMiddleware

  // ----- helpers: expiry and the verification link -----

  /** 24 hours (24 * 60 * 60 * 1000 milliseconds). */
  const ExpireMs: int := 86_400_000

  /** expiresAt(): the token expiry for a token issued at `now`. */
  function ExpiresAt(now: int): int {
    now + ExpireMs
  }

  /** A token issued at `issuedAt` is accepted by verifyEmail at `now`
      exactly when less than 24 hours have passed. */
  lemma TokenLivesOneDay(u: User, h: string, issuedAt: int, now: int)
    ensures HoldsLiveToken(IssueToken(u, h, ExpiresAt(issuedAt)), h, now) <==> now < issuedAt + 86_400_000
  {
  }

  /** What buildVerifyLink reads from the request and the environment. */
  datatype Origin = Origin(protocol: string, host: string, apiBaseUrl: Option<string>)

  const VerifyPath: string := "/api/auth/verify"

  /** buildVerifyLink: API_BASE_URL when set and non-empty, else
      `${protocol}://${host}`, followed by the verify route and the raw token. */
  function BuildVerifyLink(origin: Origin, raw: string): string {
    var base := if Present(origin.apiBaseUrl) then origin.apiBaseUrl.value
                else origin.protocol + "://" + origin.host;
    base + VerifyPath + "/" + raw
  }

  /** The last path segment of the link, which the verify route receives as
      `:token`. */
  function RouteToken(link: string): string {
    var pieces := Split(link, '/');
    pieces[|pieces| - 1]
  }

  /** The link in the mail hands the raw token, unchanged, to the verify route. */
  lemma LinkCarriesToken(origin: Origin, raw: string)
    requires IsLowerHex(raw)
    ensures RouteToken(BuildVerifyLink(origin, raw)) == raw
  {
    var base := if Present(origin.apiBaseUrl) then origin.apiBaseUrl.value
                else origin.protocol + "://" + origin.host;
    assert '/' !in raw by {
      forall k | 0 <= k < |raw| ensures raw[k] != '/' {
        assert IsHexDigit(raw[k]);
      }
    }
    assert BuildVerifyLink(origin, raw) == (base + VerifyPath) + ['/'] + raw;
    SplitLastPiece(base + VerifyPath, raw, '/');
  }

  // ----- what a request carries besides its body -----

  /** The outside world of one request: the clock (Date.now()), the bytes
      crypto.randomBytes(32) returns, the bcrypt salt, whether the SMTP
      send succeeds, JWT_EXPIRES, and where the request came in. */
  datatype Env = Env(now: int, seed: TokenSeed, salt: Salt, mailDelivered: bool,
                     jwtExpires: Option<string>, origin: Origin)

  /** The verification mail: recipient, greeting name and link. */
  datatype VerifyMail = VerifyMail(to: string, name: string, link: string)

  /** The collection after a handler, its reply, and the mail it tried to send. */
  datatype Outcome<R> = Outcome(users: Users, reply: R, mail: Option<VerifyMail>)

  /** The fresh token a request would issue, and the mail that carries it. */
  function Token(env: Env, p: Primitives): VerificationToken {
    GenerateVerificationToken(env.seed, p)
  }

  function MailFor(u: User, env: Env, p: Primitives): VerifyMail {
    VerifyMail(u.email, u.name, BuildVerifyLink(env.origin, Token(env, p).raw))
  }

  /** The user record after a token was issued in this request. */
  function Rotated(u: User, env: Env, p: Primitives): User {
    IssueToken(u, Token(env, p).hash, ExpiresAt(env.now))
  }

  /** A record whose token was just issued holds it, pending, for 24 hours. */
  lemma RotatedIsPending(u: User, env: Env, p: Primitives)
    ensures Phase(Rotated(u, env, p)) == Pending(p.sha256Hex(Token(env, p).raw), env.now + 86_400_000)
  {
  }

  // ----- signup -----

  datatype SignupForm = SignupForm(name: Option<string>, email: Option<string>, handle: Option<string>, password: Option<string>)

  /** `if (!name || !email || !handle || !password)` fails. */
  predicate Complete(f: SignupForm) {
    Present(f.name) && Present(f.email) && Present(f.handle) && Present(f.password)
  }

  datatype SignupReply =
    | SignupMissingFields       // 400 All fields are required
    | SignupInUse               // 409 Email or handle already in use
    | SignupResent              // 200 needsVerification: a fresh mail was sent
    | SignupCreated(emailSent: bool)  // 201, with or without the mail
    | SignupFailed              // 500 Signup failed

  function SignupStatus(r: SignupReply): nat {
    match r
    case SignupMissingFields => 400
    case SignupInUse => 409
    case SignupResent => 200
    case SignupCreated(_) => 201
    case SignupFailed => 500
  }

  /** The account-lookup query of signup: lower-cased email OR lower-cased handle. */
  function SignupQuery(f: SignupForm): Query
    requires Complete(f)
  {
    ByEmailOrHandle(ToLower(f.email.value), ToLower(f.handle.value))
  }

  /** The User.create call of signup. */
  function SignupDoc(f: SignupForm): NewUser
    requires Complete(f)
  {
    NewUser(f.name.value, ToLower(f.email.value), ToLower(f.handle.value), f.password.value, UserRole, false)
  }

  /** signup, with `newId` the id the store gives a new document. */
  function SignupStep(users: Users, f: SignupForm, newId: UserId, env: Env, p: Primitives): Outcome<SignupReply> {
    if !Complete(f) then Outcome(users, SignupMissingFields, None)
    else
      match FindOne(users, SignupQuery(f))
      case Some(id) =>
        if users[id].isVerified then Outcome(users, SignupInUse, None)
        else
          var u := Rotated(users[id], env, p);
          Outcome(users[id := u], SignupResent, Some(MailFor(u, env, p)))
      case None =>
        match Create(users, SignupDoc(f), p, env.salt)
        case Rejected(_) => Outcome(users, SignupFailed, None)
        case Stored(created) =>
          var u := Rotated(created, env, p);
          Outcome(users[newId := u], SignupCreated(env.mailDelivered), Some(MailFor(u, env, p)))
  }

  /** Signup answers 400 (and nothing changes) exactly when a field is
      missing; 409 or 200 exactly when an account with the lower-cased
      email or handle exists, 409 leaving the store untouched; no mail
      goes out except with a 200 or a 201. */
  lemma SignupRouting(users: Users, f: SignupForm, newId: UserId, env: Env, p: Primitives)
    ensures var o := SignupStep(users, f, newId, env, p);
      && (o.reply == SignupMissingFields <==> !Complete(f))
      && ((o.reply == SignupInUse || o.reply == SignupResent) <==>
            Complete(f) && exists id :: id in users && Satisfies(users[id], SignupQuery(f)))
      && (o.reply == SignupInUse || o.reply == SignupMissingFields || o.reply == SignupFailed ==> o.users == users && o.mail.None?)
      && (o.mail.Some? <==> o.reply == SignupResent || o.reply.SignupCreated?)
  {
    if Complete(f) && exists id :: id in users && Satisfies(users[id], SignupQuery(f)) {
      assert FindOne(users, SignupQuery(f)).Some?;
    }
  }

  /** A 409 means the account found by email or handle is verified. */
  lemma SignupRejectsVerified(users: Users, f: SignupForm, newId: UserId, env: Env, p: Primitives)
    requires SignupStep(users, f, newId, env, p).reply == SignupInUse
    ensures exists id :: id in users && Satisfies(users[id], SignupQuery(f)) && users[id].isVerified
  {
    var id := FindOne(users, SignupQuery(f)).value;
  }

  /** A 200 rotates the token of the unverified account found, to the fresh
      hash with a 24-hour expiry, changes no other field and no other
      account, creates nobody, and mails the new link to that account. */
  lemma SignupRefreshesUnverified(users: Users, f: SignupForm, newId: UserId, env: Env, p: Primitives)
    requires SignupStep(users, f, newId, env, p).reply == SignupResent
    ensures var o := SignupStep(users, f, newId, env, p);
      exists id :: && id in users && Satisfies(users[id], SignupQuery(f)) && !users[id].isVerified
                   && o.users == users[id := users[id].(verificationTokenHash := Some(p.sha256Hex(Token(env, p).raw)),
                                                       verificationTokenExpires := Some(env.now + 86_400_000))]
                   && o.users.Keys == users.Keys
                   && o.mail == Some(VerifyMail(users[id].email, users[id].name, BuildVerifyLink(env.origin, Token(env, p).raw)))
  {
    var id := FindOne(users, SignupQuery(f)).value;
    assert id in users && Satisfies(users[id], SignupQuery(f));
  }

  /** The account a successful signup stores: the created document with
      its first token issued. */
  function SignupAccount(f: SignupForm, env: Env, p: Primitives): User
    requires Complete(f)
  {
    Rotated(Created(SignupDoc(f), p, env.salt), env, p)
  }

  /** A 201 adds exactly one account, under the fresh id, with an email and
      handle no account had; the reply is 201 whether or not the mail went
      out, and the mail carries the new account's link. */
  lemma SignupCreatesOneUser(users: Users, f: SignupForm, newId: UserId, env: Env, p: Primitives)
    requires newId !in users
    requires SignupStep(users, f, newId, env, p).reply.SignupCreated?
    ensures Complete(f)
    ensures var o := SignupStep(users, f, newId, env, p);
      var u := SignupAccount(f, env, p);
      && o.reply == SignupCreated(env.mailDelivered)
      && o.users == users[newId := u]
      && !KeyTaken(users, u.email, u.handle)
      && o.mail == Some(MailFor(u, env, p))
  {
    assert Complete(f) && FindOne(users, SignupQuery(f)).None?;
    var doc := SignupDoc(f);
    assert Create(users, doc, p, env.salt) == Stored(Created(doc, p, env.salt));
    var u := SignupAccount(f, env, p);
    assert SignupStep(users, f, newId, env, p) == Outcome(users[newId := u], SignupCreated(env.mailDelivered), Some(MailFor(u, env, p)));
    assert u.email == NormalizeKey(doc.email) && u.handle == NormalizeKey(doc.handle);
  }

  /** The account signup creates keeps the submitted email and handle,
      lower-cased and trimmed, and the submitted password is the only one
      its stored hash accepts. */
  lemma SignupAccountKeys(f: SignupForm, env: Env, p: Primitives)
    requires Complete(f)
    ensures var u := SignupAccount(f, env, p);
      && u.email == NormalizeKey(f.email.value) && u.handle == NormalizeKey(f.handle.value)
      && (BcryptCorrect(p) ==> forall c :: ComparePassword(u, c, p) <==> c == f.password.value)
  {
    ToLowerIdempotent(f.email.value);
    ToLowerIdempotent(f.handle.value);
  }

  /** The account signup creates: role user, unverified, active, email and
      handle lower-cased and trimmed, a pending token that expires 24 hours
      from now, and a stored password that only the submitted one matches. */
  lemma SignupAccountShape(f: SignupForm, env: Env, p: Primitives)
    requires Complete(f)
    ensures var u := SignupAccount(f, env, p);
      && u.role == UserRole && !u.isVerified && u.isActive && TokenConsistent(u)
      && u.email == NormalizeKey(f.email.value) && u.handle == NormalizeKey(f.handle.value)
      && Phase(u) == Pending(p.sha256Hex(Token(env, p).raw), env.now + 86_400_000)
      && (BcryptCorrect(p) ==> forall c :: ComparePassword(u, c, p) <==> c == f.password.value)
  {
    SignupAccountKeys(f, env, p);
    RotatedIsPending(Created(SignupDoc(f), p, env.salt), env, p);
  }

  /** Signup keeps the store well formed and leaves the active admins alone. */
  lemma SignupKeepsInvariants(users: Users, f: SignupForm, newId: UserId, env: Env, p: Primitives)
    requires WellFormed(users) && newId !in users
    ensures WellFormed(SignupStep(users, f, newId, env, p).users)
    ensures ActiveAdmins(SignupStep(users, f, newId, env, p).users) == ActiveAdmins(users)
  {
    var o := SignupStep(users, f, newId, env, p);
    SignupRouting(users, f, newId, env, p);
    if o.reply == SignupResent {
      var id := FindOne(users, SignupQuery(f)).value;
      assert o.users == users[id := Rotated(users[id], env, p)];
      UpdateKeepsWellFormed(users, id, Rotated(users[id], env, p));
      UpdateKeepsActiveAdmins(users, id, Rotated(users[id], env, p));
    } else if o.reply.SignupCreated? {
      SignupCreatesOneUser(users, f, newId, env, p);
      SignupAccountShape(f, env, p);
      var u := SignupAccount(f, env, p);
      InsertKeepsWellFormed(users, newId, u);
      InsertKeepsActiveAdmins(users, newId, u);
    }
  }

  // ----- verifyEmail -----

  datatype VerifyReply =
    | VerifyMissingToken                // 400 Missing token.
    | VerifyInvalid                     // 400 Verification link is invalid or has expired.
    | VerifyRedirect(session: SessionToken)  // 302 to the app, the session token after '#'

  /** verifyEmail: hash the raw token, find a user holding that hash with an
      expiry later than now, mark it verified, clear both token fields, and
      sign it in. */
  function VerifyEmailStep(users: Users, raw: string, env: Env, p: Primitives): Outcome<VerifyReply> {
    if raw == "" then Outcome(users, VerifyMissingToken, None)
    else
      match FindOne(users, ByLiveToken(p.sha256Hex(raw), env.now))
      case None => Outcome(users, VerifyInvalid, None)
      case Some(id) =>
        var u := Consume(users[id]);
        Outcome(users[id := u], VerifyRedirect(SignToken(id, u.role, env.jwtExpires)), None)
  }

  /** Verification succeeds exactly when some user holds the hash of the raw
      token with an expiry strictly later than now; then that user, and only
      that user, becomes verified with both token fields cleared, and the
      session is signed for its id and role. A failure changes nothing. */
  lemma VerifySucceedsIff(users: Users, raw: string, env: Env, p: Primitives)
    ensures var o := VerifyEmailStep(users, raw, env, p);
      && (o.reply.VerifyRedirect? <==>
            raw != "" && exists id :: id in users && HoldsLiveToken(users[id], p.sha256Hex(raw), env.now))
      && (!o.reply.VerifyRedirect? ==> o.users == users)
      && (o.reply.VerifyRedirect? ==>
            exists id :: && id in users && HoldsLiveToken(users[id], p.sha256Hex(raw), env.now)
                         && o.users == users[id := users[id].(isVerified := true, verificationTokenHash := None, verificationTokenExpires := None)]
                         && o.reply.session == SignToken(id, users[id].role, env.jwtExpires))
  {
    var q := ByLiveToken(p.sha256Hex(raw), env.now);
    if raw != "" && exists id :: id in users && HoldsLiveToken(users[id], p.sha256Hex(raw), env.now) {
      var id :| id in users && HoldsLiveToken(users[id], p.sha256Hex(raw), env.now);
      assert Satisfies(users[id], q);
    }
  }

  /** No two users hold the same stored token hash. */
  predicate HashHeldOnce(users: Users, h: string) {
    forall a, b ::
      (a in users && b in users && users[a].verificationTokenHash == Some(h) && users[b].verificationTokenHash == Some(h))
      ==> a == b
  }

  /** A verification link works once: when no other user holds the same
      hash, following it a second time, at any time, is refused. */
  lemma VerifyIsSingleUse(users: Users, raw: string, env: Env, later: Env, p: Primitives)
    requires HashHeldOnce(users, p.sha256Hex(raw))
    requires VerifyEmailStep(users, raw, env, p).reply.VerifyRedirect?
    ensures var after := VerifyEmailStep(users, raw, env, p).users;
      VerifyEmailStep(after, raw, later, p) == Outcome(after, VerifyInvalid, None)
  {
    var h := p.sha256Hex(raw);
    var id := FindOne(users, ByLiveToken(h, env.now)).value;
    var after := VerifyEmailStep(users, raw, env, p).users;
    forall j | j in after ensures !Satisfies(after[j], ByLiveToken(h, later.now)) {
      if j != id {
        assert users[j].verificationTokenHash != Some(h);
      }
    }
  }

  /** Once every holder's expiry is at or before now, the link is refused
      and nothing changes. */
  lemma ExpiredTokenRejected(users: Users, raw: string, env: Env, p: Primitives)
    requires raw != ""
    requires forall id :: id in users && users[id].verificationTokenHash == Some(p.sha256Hex(raw)) ==>
               users[id].verificationTokenExpires.Some? && users[id].verificationTokenExpires.value <= env.now
    ensures VerifyEmailStep(users, raw, env, p) == Outcome(users, VerifyInvalid, None)
  {
    VerifySucceedsIff(users, raw, env, p);
  }

  lemma VerifyKeepsInvariants(users: Users, raw: string, env: Env, p: Primitives)
    requires WellFormed(users)
    ensures WellFormed(VerifyEmailStep(users, raw, env, p).users)
    ensures ActiveAdmins(VerifyEmailStep(users, raw, env, p).users) == ActiveAdmins(users)
  {
    var o := VerifyEmailStep(users, raw, env, p);
    if o.reply.VerifyRedirect? {
      var id := FindOne(users, ByLiveToken(p.sha256Hex(raw), env.now)).value;
      UpdateKeepsWellFormed(users, id, Consume(users[id]));
      UpdateKeepsActiveAdmins(users, id, Consume(users[id]));
    }
  }

  // ----- resendVerification -----

  datatype ResendReply =
    | ResendEmailRequired           // 400 Email is required
    | ResendNoAccount               // 404 No account found with that email
    | ResendAlreadyVerified         // 400 Account is already verified
    | ResendRotated(emailSent: bool)  // 200, with or without the mail

  function ResendStatus(r: ResendReply): nat {
    match r
    case ResendEmailRequired => 400
    case ResendNoAccount => 404
    case ResendAlreadyVerified => 400
    case ResendRotated(_) => 200
  }

  function ResendStep(users: Users, email: Option<string>, env: Env, p: Primitives): Outcome<ResendReply> {
    if !Present(email) then Outcome(users, ResendEmailRequired, None)
    else
      match FindOne(users, ByEmail(ToLower(email.value)))
      case None => Outcome(users, ResendNoAccount, None)
      case Some(id) =>
        if users[id].isVerified then Outcome(users, ResendAlreadyVerified, None)
        else
          var u := Rotated(users[id], env, p);
          Outcome(users[id := u], ResendRotated(env.mailDelivered), Some(MailFor(u, env, p)))
  }

  /** Resend answers 400 without an email, 404 when no account has the
      lower-cased email, 400 when that account is verified (all three
      leaving the store alone), and otherwise rotates that account's token
      and mails the new link to it. */
  lemma ResendRouting(users: Users, email: Option<string>, env: Env, p: Primitives)
    requires UniqueKeys(users)
    ensures var o := ResendStep(users, email, env, p);
      && (o.reply == ResendEmailRequired <==> !Present(email))
      && (o.reply == ResendNoAccount <==> Present(email) && forall id :: id in users ==> users[id].email != ToLower(email.value))
      && (o.reply == ResendAlreadyVerified <==>
            Present(email) && exists id :: id in users && users[id].email == ToLower(email.value) && users[id].isVerified)
      && (!o.reply.ResendRotated? ==> o.users == users && o.mail.None?)
      && (o.reply.ResendRotated? ==>
            exists id :: && id in users && users[id].email == ToLower(email.value) && !users[id].isVerified
                         && o.users == users[id := Rotated(users[id], env, p)]
                         && o.mail == Some(MailFor(users[id], env, p)))
  {
    if Present(email) {
      var q := ByEmail(ToLower(email.value));
      if exists id :: id in users && users[id].email == ToLower(email.value) {
        var id :| id in users && users[id].email == ToLower(email.value);
        assert Satisfies(users[id], q);
        var found := FindOne(users, q).value;
        assert found == id;
      }
    }
  }

  /** Resending replaces the pending token: the previous raw token no longer
      verifies (given SHA-256 is collision free and nobody else holds its
      hash), while the new one does for the next 24 hours. */
  lemma ResendInvalidatesPrevious(users: Users, email: Option<string>, env: Env, later: Env, p: Primitives, oldRaw: string)
    requires UniqueKeys(users) && ShaInjective(p)
    requires ResendStep(users, email, env, p).reply.ResendRotated?
    requires oldRaw != "" && oldRaw != Token(env, p).raw
    requires forall id :: id in users && users[id].verificationTokenHash == Some(p.sha256Hex(oldRaw)) ==> users[id].email == ToLower(email.value)
    ensures var after := ResendStep(users, email, env, p).users;
      && VerifyEmailStep(after, oldRaw, later, p).reply == VerifyInvalid
      && (later.now < env.now + 86_400_000 ==>
            VerifyEmailStep(after, Token(env, p).raw, later, p).reply.VerifyRedirect?)
  {
    var o := ResendStep(users, email, env, p);
    var after := o.users;
    var id := FindOne(users, ByEmail(ToLower(email.value))).value;
    var t := Token(env, p);
    assert after == users[id := Rotated(users[id], env, p)];
    assert p.sha256Hex(oldRaw) != t.hash;
    forall j | j in after ensures !HoldsLiveToken(after[j], p.sha256Hex(oldRaw), later.now) {
      if j != id {
        assert users[j].email != ToLower(email.value);
      }
    }
    VerifySucceedsIff(after, oldRaw, later, p);
    if later.now < env.now + 86_400_000 {
      assert t.raw != "" by {
        assert |t.raw| == 64;
      }
      assert HoldsLiveToken(after[id], p.sha256Hex(t.raw), later.now);
      VerifySucceedsIff(after, t.raw, later, p);
    }
  }

  lemma ResendKeepsInvariants(users: Users, email: Option<string>, env: Env, p: Primitives)
    requires WellFormed(users)
    ensures WellFormed(ResendStep(users, email, env, p).users)
    ensures ActiveAdmins(ResendStep(users, email, env, p).users) == ActiveAdmins(users)
  {
    var o := ResendStep(users, email, env, p);
    if o.reply.ResendRotated? {
      var id := FindOne(users, ByEmail(ToLower(email.value))).value;
      UpdateKeepsWellFormed(users, id, Rotated(users[id], env, p));
      UpdateKeepsActiveAdmins(users, id, Rotated(users[id], env, p));
    }
  }

  // ----- login -----

  datatype LoginForm = LoginForm(emailOrHandle: Option<string>, password: Option<string>)

  /** The `user` object of the login reply and of createSubadmin's 201. */
  datatype Profile = Profile(id: UserId, name: string, handle: string, role: Role)

  function ProfileOf(id: UserId, u: User): Profile {
    Profile(id, u.name, u.handle, u.role)
  }

  datatype LoginReply =
    | LoginMissing                                    // 400 Missing credentials
    | LoginInvalid                                    // 401 Invalid credentials
    | LoginDisabled                                   // 403 Account disabled
    | LoginUnverified                                 // 403 needsVerification
    | LoginOk(session: SessionToken, profile: Profile)  // 200 { token, user }

  function LoginStatus(r: LoginReply): nat {
    match r
    case LoginMissing => 400
    case LoginInvalid => 401
    case LoginDisabled => 403
    case LoginUnverified => 403
    case LoginOk(_, _) => 200
  }

  /** The login lookup: the lower-cased (not trimmed) key against email OR handle. */
  function LoginQuery(key: string): Query {
    ByEmailOrHandle(ToLower(key), ToLower(key))
  }

  /** login: existence, then the password, then isActive, then isVerified. */
  function LoginStep(users: Users, form: LoginForm, jwtExpires: Option<string>, p: Primitives): LoginReply {
    if !Present(form.emailOrHandle) || !Present(form.password) then LoginMissing
    else
      match FindOne(users, LoginQuery(form.emailOrHandle.value))
      case None => LoginInvalid
      case Some(id) =>
        var u := users[id];
        if !ComparePassword(u, form.password.value, p) then LoginInvalid
        else if !u.isActive then LoginDisabled
        else if !u.isVerified then LoginUnverified
        else LoginOk(SignToken(id, u.role, jwtExpires), ProfileOf(id, u))
  }

  /** No account under the key: 401, the same answer as a wrong password. */
  lemma LoginUnknownAccount(users: Users, form: LoginForm, jwtExpires: Option<string>, p: Primitives)
    requires Present(form.emailOrHandle) && Present(form.password)
    requires forall id :: id in users ==> !Satisfies(users[id], LoginQuery(form.emailOrHandle.value))
    ensures LoginStep(users, form, jwtExpires, p) == LoginInvalid
  {
  }

  /** For the one account under the key, whose stored hash was made from
      `plain`: a wrong password is 401 whatever the account's state (so a
      disabled or unverified account is not revealed), then a disabled
      account is 403, then an unverified one is 403, and otherwise the
      session is signed for the account's id and role. */
  lemma LoginForAccount(users: Users, id: UserId, form: LoginForm, plain: string, salt: Salt,
                        jwtExpires: Option<string>, p: Primitives)
    requires Present(form.emailOrHandle) && Present(form.password)
    requires id in users && Satisfies(users[id], LoginQuery(form.emailOrHandle.value))
    requires forall j :: j in users && j != id ==> !Satisfies(users[j], LoginQuery(form.emailOrHandle.value))
    requires BcryptCorrect(p) && users[id].password == p.bcryptHash(plain, salt)
    ensures var u := users[id];
      LoginStep(users, form, jwtExpires, p) ==
        if form.password.value != plain then LoginInvalid
        else if !u.isActive then LoginDisabled
        else if !u.isVerified then LoginUnverified
        else LoginOk(SignToken(id, u.role, jwtExpires), Profile(id, u.name, u.handle, u.role))
  {
    FindOneUnique(users, LoginQuery(form.emailOrHandle.value), id);
  }

  /** The one account under the key, when its password matches and it is
      active and verified, is signed in. */
  lemma LoginSucceeds(users: Users, id: UserId, form: LoginForm, jwtExpires: Option<string>, p: Primitives)
    requires Present(form.emailOrHandle) && Present(form.password)
    requires id in users && Satisfies(users[id], LoginQuery(form.emailOrHandle.value))
    requires forall j :: j in users && j != id ==> !Satisfies(users[j], LoginQuery(form.emailOrHandle.value))
    requires ComparePassword(users[id], form.password.value, p) && users[id].isActive && users[id].isVerified
    ensures LoginStep(users, form, jwtExpires, p) == LoginOk(SignToken(id, users[id].role, jwtExpires), ProfileOf(id, users[id]))
  {
    FindOneUnique(users, LoginQuery(form.emailOrHandle.value), id);
  }

  /** A session is only ever issued to an account found under the key whose
      password check passed and which is active and verified, and it
      carries that account's id and role. */
  lemma LoginOkMeansAllChecksPassed(users: Users, form: LoginForm, jwtExpires: Option<string>, p: Primitives)
    requires LoginStep(users, form, jwtExpires, p).LoginOk?
    ensures Present(form.emailOrHandle) && Present(form.password)
    ensures var r := LoginStep(users, form, jwtExpires, p);
      exists id :: && id in users && Satisfies(users[id], LoginQuery(form.emailOrHandle.value))
                   && ComparePassword(users[id], form.password.value, p)
                   && users[id].isActive && users[id].isVerified
                   && r.session.payload == Claims(id, users[id].role, None)
                   && r.profile == ProfileOf(id, users[id])
  {
    var id := FindOne(users, LoginQuery(form.emailOrHandle.value)).value;
  }

  // ----- createSubadmin (auth routes, admin only) -----

  datatype SubadminReply =
    | SubadminMissingFields           // 400 All fields are required
    | SubadminInUse                   // 409 Email or handle already in use
    | SubadminCreated(profile: Profile)  // 201 { id, name, handle, role }
    | SubadminUnhandled               // User.create rejected: the handler has no catch, no reply is sent

  /** The User.create call: lower-cased keys, role subadmin, verified. */
  function SubadminDoc(f: SignupForm): NewUser
    requires Complete(f)
  {
    NewUser(f.name.value, ToLower(f.email.value), ToLower(f.handle.value), f.password.value, SubadminRole, true)
  }

  function CreateSubadminStep(users: Users, f: SignupForm, newId: UserId, env: Env, p: Primitives): Outcome<SubadminReply> {
    if !Complete(f) then Outcome(users, SubadminMissingFields, None)
    else if FindOne(users, SignupQuery(f)).Some? then Outcome(users, SubadminInUse, None)
    else
      match Create(users, SubadminDoc(f), p, env.salt)
      case Rejected(_) => Outcome(users, SubadminUnhandled, None)
      case Stored(u) => Outcome(users[newId := u], SubadminCreated(ProfileOf(newId, u)), None)
  }

  /** A 409 exactly when an account has the lower-cased email or handle; a
      201 adds exactly one account under the fresh id: a verified, active
      subadmin holding no token, with lower-cased and trimmed keys no
      account had, and a password only the submitted one matches. */
  lemma CreateSubadminOutcome(users: Users, f: SignupForm, newId: UserId, env: Env, p: Primitives)
    requires Complete(f)
    ensures var o := CreateSubadminStep(users, f, newId, env, p);
      && (o.reply == SubadminInUse <==> exists id :: id in users && Satisfies(users[id], SignupQuery(f)))
      && (!o.reply.SubadminCreated? ==> o.users == users)
      && (o.reply.SubadminCreated? ==>
            var u := Created(SubadminDoc(f), p, env.salt);
            && o.users == users[newId := u]
            && o.reply.profile == Profile(newId, u.name, u.handle, SubadminRole)
            && !KeyTaken(users, u.email, u.handle))
  {
    var q := SignupQuery(f);
    if exists id :: id in users && Satisfies(users[id], q) {
      assert FindOne(users, q).Some?;
    }
    var o := CreateSubadminStep(users, f, newId, env, p);
    if o.reply.SubadminCreated? {
      var doc := SubadminDoc(f);
      var u := Created(doc, p, env.salt);
      assert Create(users, doc, p, env.salt) == Stored(u);
      assert o == Outcome(users[newId := u], SubadminCreated(ProfileOf(newId, u)), None);
      assert u.email == NormalizeKey(doc.email) && u.handle == NormalizeKey(doc.handle);
    }
  }

  lemma SubadminAccountShape(f: SignupForm, p: Primitives, salt: Salt)
    requires Complete(f)
    ensures var u := Created(SubadminDoc(f), p, salt);
      && u.role == SubadminRole && u.isVerified && u.isActive
      && Phase(u) == Consumed && TokenConsistent(u)
      && u.email == NormalizeKey(f.email.value) && u.handle == NormalizeKey(f.handle.value)
      && (BcryptCorrect(p) ==> forall c :: ComparePassword(u, c, p) <==> c == f.password.value)
  {
    ToLowerIdempotent(f.email.value);
    ToLowerIdempotent(f.handle.value);
  }

  lemma CreateSubadminKeepsInvariants(users: Users, f: SignupForm, newId: UserId, env: Env, p: Primitives)
    requires WellFormed(users) && newId !in users
    ensures WellFormed(CreateSubadminStep(users, f, newId, env, p).users)
    ensures ActiveAdmins(CreateSubadminStep(users, f, newId, env, p).users) == ActiveAdmins(users)
  {
    if Complete(f) {
      CreateSubadminOutcome(users, f, newId, env, p);
      var o := CreateSubadminStep(users, f, newId, env, p);
      if o.reply.SubadminCreated? {
        SubadminAccountShape(f, p, env.salt);
        var u := Created(SubadminDoc(f), p, env.salt);
        InsertKeepsWellFormed(users, newId, u);
        InsertKeepsActiveAdmins(users, newId, u);
      }
    }
  }

  /** An account added under a fresh id, with the lower-cased key as its
      email, a matching password, active and verified, logs in with that
      key when no other account answers to it. */
  lemma NewAccountCanLogIn(users: Users, newId: UserId, u: User, key: string, password: string,
                           jwtExpires: Option<string>, p: Primitives)
    requires newId !in users && key != "" && password != ""
    requires u.email == ToLower(key) && !KeyTaken(users, u.email, u.handle)
    requires forall id :: id in users ==> users[id].handle != ToLower(key)
    requires ComparePassword(u, password, p) && u.isActive && u.isVerified
    ensures LoginStep(users[newId := u], LoginForm(Some(key), Some(password)), jwtExpires, p)
            == LoginOk(SignToken(newId, u.role, jwtExpires), ProfileOf(newId, u))
  {
    var after := users[newId := u];
    forall j | j in after && j != newId ensures !Satisfies(after[j], LoginQuery(key)) {
      assert after[j] == users[j];
      assert users[j].email != u.email;
    }
    LoginSucceeds(after, newId, LoginForm(Some(key), Some(password)), jwtExpires, p);
  }

  /** A subadmin created here can log in straight away with its password,
      under its email, when no other account has that email as handle. */
  lemma CreatedSubadminCanLogIn(users: Users, f: SignupForm, newId: UserId, env: Env, p: Primitives)
    requires newId !in users && Complete(f) && BcryptCorrect(p)
    requires IsTrimmed(ToLower(f.email.value))
    requires forall id :: id in users ==> users[id].handle != ToLower(f.email.value)
    requires CreateSubadminStep(users, f, newId, env, p).reply.SubadminCreated?
    ensures var after := CreateSubadminStep(users, f, newId, env, p).users;
      LoginStep(after, LoginForm(f.email, f.password), env.jwtExpires, p).LoginOk?
  {
    CreateSubadminOutcome(users, f, newId, env, p);
    SubadminAccountShape(f, p, env.salt);
    var u := Created(SubadminDoc(f), p, env.salt);
    ToLowerIdempotent(f.email.value);
    TrimOfTrimmed(ToLower(f.email.value));
    NewAccountCanLogIn(users, newId, u, f.email.value, f.password.value, env.jwtExpires, p);
  }

  // ----- the whole journey -----

  /** Following the mailed link within 24 hours of signing up verifies the
      new account and signs it in as a user, provided no other account holds
      the same token hash. */
  lemma SignupThenVerify(users: Users, f: SignupForm, newId: UserId, env: Env, later: Env, p: Primitives)
    requires newId !in users
    requires SignupStep(users, f, newId, env, p).reply.SignupCreated?
    requires forall id :: id in users ==> users[id].verificationTokenHash != Some(Token(env, p).hash)
    requires later.now < env.now + 86_400_000
    ensures var o := SignupStep(users, f, newId, env, p);
      && o.mail.Some?
      && var v := VerifyEmailStep(o.users, RouteToken(o.mail.value.link), later, p);
      && v.reply == VerifyRedirect(SignToken(newId, UserRole, later.jwtExpires))
      && v.users == users[newId := Consume(SignupAccount(f, env, p))]
  {
    SignupCreatesOneUser(users, f, newId, env, p);
    SignupAccountShape(f, env, p);
    var o := SignupStep(users, f, newId, env, p);
    var t := Token(env, p);
    LinkCarriesToken(env.origin, t.raw);
    assert RouteToken(o.mail.value.link) == t.raw;
    assert t.raw != "" by {
      assert |t.raw| == 64;
    }
    var q := ByLiveToken(p.sha256Hex(t.raw), later.now);
    assert o.users == users[newId := SignupAccount(f, env, p)];
    assert t.hash == p.sha256Hex(t.raw);
    forall j | j in o.users && j != newId ensures !Satisfies(o.users[j], q) {
      assert o.users[j] == users[j];
      assert users[j].verificationTokenHash != Some(t.hash);
    }
    FindOneUnique(o.users, q, newId);
    WriteTwice(users, newId, SignupAccount(f, env, p), Consume(SignupAccount(f, env, p)));
  }

  /** After verification (the store SignupThenVerify ends in), the submitted
      email and password log the new account in, provided the email had no
      surrounding spaces and no other account uses it as a handle. */
  lemma VerifiedSignupCanLogIn(users: Users, f: SignupForm, newId: UserId, env: Env, p: Primitives)
    requires newId !in users && BcryptCorrect(p)
    requires SignupStep(users, f, newId, env, p).reply.SignupCreated?
    requires IsTrimmed(ToLower(f.email.value))
    requires forall id :: id in users ==> users[id].handle != ToLower(f.email.value)
    ensures var verified := users[newId := Consume(SignupAccount(f, env, p))];
      LoginStep(verified, LoginForm(f.email, f.password), env.jwtExpires, p)
        == LoginOk(SignToken(newId, UserRole, env.jwtExpires), ProfileOf(newId, Consume(SignupAccount(f, env, p))))
  {
    SignupCreatesOneUser(users, f, newId, env, p);
    SignupAccountShape(f, env, p);
    var u := SignupAccount(f, env, p);
    ToLowerIdempotent(f.email.value);
    TrimOfTrimmed(ToLower(f.email.value));
    NewAccountCanLogIn(users, newId, Consume(u), f.email.value, f.password.value, env.jwtExpires, p);
  }

  // ----- the handlers, performed on the users collection -----

  /** Both token fields of a fetched document, overwritten one after the other. */
  method IssueFreshToken(doc: User, env: Env, p: Primitives) returns (d: User, link: string)
    ensures d == Rotated(doc, env, p)
    ensures link == BuildVerifyLink(env.origin, Token(env, p).raw)
  {
    var t := GenerateVerificationToken(env.seed, p);
    d := doc.(verificationTokenHash := Some(t.hash));
    d := d.(verificationTokenExpires := Some(ExpiresAt(env.now)));
    link := BuildVerifyLink(env.origin, t.raw);
  }

  /** POST /api/auth/signup. */
  method Signup(users: UserCollection, f: SignupForm, env: Env, p: Primitives)
    returns (reply: SignupReply, mail: Option<VerifyMail>)
    requires users.Valid()
    modifies users
    ensures users.Valid()
    ensures Outcome(users.docs, reply, mail) == SignupStep(old(users.docs), f, old(users.nextId), env, p)
    ensures users.nextId == if reply.SignupCreated? then old(users.nextId) + 1 else old(users.nextId)
  {
    if !Complete(f) {
      return SignupMissingFields, None;
    }
    var emailL := ToLower(f.email.value);
    var handleL := ToLower(f.handle.value);
    var existing := FindOne(users.docs, ByEmailOrHandle(emailL, handleL));
    if existing.Some? {
      var doc := users.docs[existing.value];
      if doc.isVerified {
        return SignupInUse, None;
      }
      var link;
      doc, link := IssueFreshToken(doc, env, p);
      users.Save(existing.value, PreSave(doc, false, p, env.salt));
      return SignupResent, Some(VerifyMail(doc.email, doc.name, link));
    }
    var created := Create(users.docs, SignupDoc(f), p, env.salt);
    if created.Rejected? {
      return SignupFailed, None;
    }
    ghost var before := users.docs;
    var id := users.Insert(created.user);
    var doc, link := IssueFreshToken(created.user, env, p);
    users.Save(id, PreSave(doc, false, p, env.salt));
    WriteTwice(before, id, created.user, doc);
    return SignupCreated(env.mailDelivered), Some(VerifyMail(doc.email, doc.name, link));
  }

  /** GET /api/auth/verify/:token. */
  method VerifyEmail(users: UserCollection, raw: string, env: Env, p: Primitives) returns (reply: VerifyReply)
    requires users.Valid()
    modifies users
    ensures users.Valid() && users.nextId == old(users.nextId)
    ensures Outcome(users.docs, reply, None) == VerifyEmailStep(old(users.docs), raw, env, p)
  {
    if raw == "" {
      return VerifyMissingToken;
    }
    var hash := p.sha256Hex(raw);
    var found := FindOne(users.docs, ByLiveToken(hash, env.now));
    if found.None? {
      return VerifyInvalid;
    }
    var doc := users.docs[found.value];
    doc := doc.(isVerified := true);
    doc := doc.(verificationTokenHash := None);
    doc := doc.(verificationTokenExpires := None);
    users.Save(found.value, PreSave(doc, false, p, env.salt));
    return VerifyRedirect(SignToken(found.value, doc.role, env.jwtExpires));
  }

  /** POST /api/auth/resend-verification. */
  method ResendVerification(users: UserCollection, email: Option<string>, env: Env, p: Primitives)
    returns (reply: ResendReply, mail: Option<VerifyMail>)
    requires users.Valid()
    modifies users
    ensures users.Valid() && users.nextId == old(users.nextId)
    ensures Outcome(users.docs, reply, mail) == ResendStep(old(users.docs), email, env, p)
  {
    if !Present(email) {
      return ResendEmailRequired, None;
    }
    var found := FindOne(users.docs, ByEmail(ToLower(email.value)));
    if found.None? {
      return ResendNoAccount, None;
    }
    var doc := users.docs[found.value];
    if doc.isVerified {
      return ResendAlreadyVerified, None;
    }
    var link;
    doc, link := IssueFreshToken(doc, env, p);
    users.Save(found.value, PreSave(doc, false, p, env.salt));
    return ResendRotated(env.mailDelivered), Some(VerifyMail(doc.email, doc.name, link));
  }

  /** POST /api/auth/admin/create-subadmin, behind requireAuth and requireRole('admin'). */
  method CreateSubadmin(users: UserCollection, f: SignupForm, env: Env, p: Primitives) returns (reply: SubadminReply)
    requires users.Valid()
    modifies users
    ensures users.Valid()
    ensures Outcome(users.docs, reply, None) == CreateSubadminStep(old(users.docs), f, old(users.nextId), env, p)
    ensures users.nextId == if reply.SubadminCreated? then old(users.nextId) + 1 else old(users.nextId)
  {
    if !Complete(f) {
      return SubadminMissingFields;
    }
    var existing := FindOne(users.docs, ByEmailOrHandle(ToLower(f.email.value), ToLower(f.handle.value)));
    if existing.Some? {
      return SubadminInUse;
    }
    var created := Create(users.docs, SubadminDoc(f), p, env.salt);
    if created.Rejected? {
      return SubadminUnhandled;
    }
    var id := users.Insert(created.user);
    return SubadminCreated(ProfileOf(id, created.user));
  }
}
