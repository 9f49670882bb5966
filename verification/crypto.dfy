/** The cryptographic libraries the core calls: Node's crypto (randomBytes,
    sha256), bcrypt and jsonwebtoken. Their internals are not modelled: the
    primitives are function values handed to every operation that needs them,
    and what the proofs need of them is stated as predicates that the lemmas
    take as hypotheses. */
module Crypto {
  import opened Common

  /** Salt material from bcrypt.genSalt(10). */
  type Salt = nat

  datatype Primitives = Primitives(
    sha256Hex: string -> string,            // createHash('sha256').update(x).digest('hex')
    bcryptHash: (string, Salt) -> string,   // bcrypt.hash(plain, salt)
    bcryptCompare: (string, string) -> bool // bcrypt.compare(candidate, stored)
  )

  /** Collision resistance of SHA-256, taken as an assumption. */
  ghost predicate ShaInjective(p: Primitives) {
    forall a, b :: p.sha256Hex(a) == p.sha256Hex(b) ==> a == b
  }

  /** An idealisation of bcrypt: compare accepts exactly the password the
      stored hash was made from. The real bcrypt reads only the first 72
      bytes of a password, so for longer passwords it also accepts any
      candidate that shares those 72 bytes. */
  ghost predicate BcryptCorrect(p: Primitives) {
    forall plain, salt, candidate :: p.bcryptCompare(candidate, p.bcryptHash(plain, salt)) <==> candidate == plain
  }

  /** The output of crypto.randomBytes(32). */
  type TokenSeed = s: seq<Byte> | |s| == 32 witness seq(32, _ => 0)

  /** The raw token goes into the e-mailed link; only its hash is stored. */
  datatype VerificationToken = VerificationToken(raw: string, hash: string)

  /** generateVerificationToken: 64 lower-case hex characters (256 random bits)
      and their SHA-256 digest. */
  function GenerateVerificationToken(seed: TokenSeed, p: Primitives): (t: VerificationToken)
    ensures |t.raw| == 64 && IsLowerHex(t.raw)
    ensures t.hash == p.sha256Hex(t.raw)
  {
    var raw := Hex(seed);
    VerificationToken(raw, p.sha256Hex(raw))
  }

  /** Different random bytes give different raw tokens and, when SHA-256 is
      collision free, different stored hashes. */
  lemma DistinctSeedsDistinctTokens(s1: TokenSeed, s2: TokenSeed, p: Primitives)
    requires s1 != s2
    ensures GenerateVerificationToken(s1, p).raw != GenerateVerificationToken(s2, p).raw
    ensures ShaInjective(p) ==> GenerateVerificationToken(s1, p).hash != GenerateVerificationToken(s2, p).hash
  {
    HexInjective(s1, s2);
  }
}
