/** The User record of models/User.js, with the verification fields the
    auth controller reads and writes, the schema's setters, validators and
    defaults, the pre-save hashing hook and comparePassword. */
module UserModel {
  import opened Common
  import opened Crypto

  type UserId = nat
  type PoetId = nat
  type WritingId = nat

  datatype Role = UserRole | SubadminRole | AdminRole

  function RoleName(r: Role): string {
    match r
    case UserRole => "user"
    case SubadminRole => "subadmin"
    case AdminRole => "admin"
  }

  /** The role enum check: only the three names are roles. */
  function ParseRole(s: string): (r: Option<Role>)
    ensures r.Some? ==> RoleName(r.value) == s
    ensures r.None? ==> forall x: Role :: RoleName(x) != s
  {
    if s == "user" then Some(UserRole)
    else if s == "subadmin" then Some(SubadminRole)
    else if s == "admin" then Some(AdminRole)
    else None
  }

  lemma ParseRoleName(r: Role)
    ensures ParseRole(RoleName(r)) == Some(r)
  {
  }

  datatype User = User(
    name: string,
    email: string,
    handle: string,
    password: string,                       // the bcrypt hash once saved
    role: Role,
    isActive: bool,
    isVerified: bool,                       // read and written by the controllers only
    verificationTokenHash: Option<string>,  // idem
    verificationTokenExpires: Option<int>,  // idem, milliseconds since the epoch
    followingPoets: seq<PoetId>,
    likedWritings: seq<WritingId>)

  /** The fields a User.create call supplies. */
  datatype NewUser = NewUser(name: string, email: string, handle: string, password: string, role: Role, isVerified: bool)

  const MinPasswordLength := 6

  /** The schema's `lowercase: true, trim: true` setters of email and handle. */
  function NormalizeKey(s: string): string {
    Trim(ToLower(s))
  }

  /** required on name, email, handle (after the trim setter) and password;
      minlength 6 on password, counted as JavaScript's `length` counts. */
  predicate PassesValidation(f: NewUser) {
    && Trim(f.name) != ""
    && NormalizeKey(f.email) != ""
    && NormalizeKey(f.handle) != ""
    && Utf16Length(f.password) >= MinPasswordLength
  }

  /** Three emoji are six UTF-16 code units, so they meet the minimum
      length, as they do for Mongoose's minlength. */
  lemma AstralPasswordLongEnough()
    ensures Utf16Length("\U{1F600}\U{1F600}\U{1F600}") >= MinPasswordLength
  {
    var pw := "\U{1F600}\U{1F600}\U{1F600}";
    assert forall k :: 0 <= k < |pw| ==> IsAstral(pw[k]);
  }

  /** A new document: setters applied, defaults filled in (isActive true, no
      verification token, empty follow and like lists); the password is still
      the plain text until the pre-save hook runs. */
  function Instantiate(f: NewUser): (u: User)
    ensures u.isActive && u.verificationTokenHash.None? && u.verificationTokenExpires.None?
    ensures u.followingPoets == [] && u.likedWritings == []
    ensures u.role == f.role && u.isVerified == f.isVerified && u.password == f.password
    ensures u.name == Trim(f.name) && u.email == NormalizeKey(f.email) && u.handle == NormalizeKey(f.handle)
  {
    User(Trim(f.name), NormalizeKey(f.email), NormalizeKey(f.handle), f.password, f.role,
         true, f.isVerified, None, None, [], [])
  }

  /** The pre('save') hook: rehash the password only when it was modified. */
  function PreSave(u: User, passwordModified: bool, p: Primitives, salt: Salt): (r: User)
    ensures r == u.(password := r.password)
    ensures !passwordModified ==> r == u
    ensures passwordModified && BcryptCorrect(p) ==> forall c :: ComparePassword(r, c, p) <==> c == u.password
  {
    if passwordModified then u.(password := p.bcryptHash(u.password, salt)) else u
  }

  /** comparePassword: bcrypt.compare of the candidate against the stored hash. */
  function ComparePassword(u: User, candidate: string, p: Primitives): bool {
    p.bcryptCompare(candidate, u.password)
  }

  // ----- the verification-token state machine -----

  datatype VerificationPhase = Unissued | Pending(hash: string, expires: int) | Consumed

  /** none -> pending (signup, resend) -> pending (resend) -> consumed (verifyEmail). */
  function Phase(u: User): VerificationPhase {
    if u.verificationTokenHash.Some? && u.verificationTokenExpires.Some? then
      Pending(u.verificationTokenHash.value, u.verificationTokenExpires.value)
    else if u.isVerified then Consumed
    else Unissued
  }

  /** Hash and expiry are set and cleared together, and a verified user holds no token. */
  predicate TokenConsistent(u: User) {
    && (u.verificationTokenHash.Some? <==> u.verificationTokenExpires.Some?)
    && (u.isVerified ==> u.verificationTokenHash.None?)
  }

  /** The verifyEmail query: this hash, with an expiry strictly later than now. */
  predicate HoldsLiveToken(u: User, hash: string, now: int) {
    && u.verificationTokenHash == Some(hash)
    && u.verificationTokenExpires.Some?
    && u.verificationTokenExpires.value > now
  }

  /** Signup and resend overwrite both token fields and nothing else. */
  function IssueToken(u: User, hash: string, expires: int): (r: User)
    ensures Phase(r) == Pending(hash, expires)
    ensures TokenConsistent(r) <==> !u.isVerified
    ensures forall h, t :: HoldsLiveToken(r, h, t) <==> h == hash && expires > t
    ensures r == u.(verificationTokenHash := r.verificationTokenHash, verificationTokenExpires := r.verificationTokenExpires)
  {
    u.(verificationTokenHash := Some(hash), verificationTokenExpires := Some(expires))
  }

  /** verifyEmail on success: verified, both token fields cleared, every
      other field kept. */
  function Consume(u: User): (r: User)
    ensures Phase(r) == Consumed && TokenConsistent(r)
    ensures forall h, t :: !HoldsLiveToken(r, h, t)
    ensures r == u.(isVerified := r.isVerified, verificationTokenHash := r.verificationTokenHash,
                    verificationTokenExpires := r.verificationTokenExpires)
  {
    u.(isVerified := true, verificationTokenHash := None, verificationTokenExpires := None)
  }
}
