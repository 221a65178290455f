/** The cryptography the core calls into, left abstract: password hashing
    (bcrypt behind the user model) and JSON Web Tokens (jsonwebtoken's
    `sign` and `verify`). Each is a pair of functions passed in as
    configuration, with the contract the core relies on stated as a ghost
    predicate; what the core itself decides (the claims it signs, when a
    token counts as expired) is concrete. */
module Crypto {

  import opened Common

  // ----- passwords -----

  /** One-way password hashing; the stored value is `hash(password)`. */
  datatype Hasher = Hasher(hash: string -> string)

  /** The contract relied on: distinct passwords never share a hash. */
  ghost predicate CollisionFree(h: Hasher) {
    forall a, b :: h.hash(a) == h.hash(b) ==> a == b
  }

  /** `user.comparePassword(candidate)` against the stored hash. */
  predicate ComparePassword(h: Hasher, candidate: string, stored: string) {
    h.hash(candidate) == stored
  }

  /** A candidate matches a stored hash exactly when it is the password that was hashed. */
  lemma CompareHashed(h: Hasher, candidate: string, password: string)
    requires CollisionFree(h)
    ensures ComparePassword(h, candidate, h.hash(password)) <==> candidate == password
  {}

  // ----- tokens -----

  /** The claims `jwt.sign({ id }, secret, { expiresIn: '30d' })` puts in a
      token: the user id, `iat` (section 4.1.6 of RFC 7519) and `exp`
      (section 4.1.4 of RFC 7519), both NumericDates in whole seconds. */
  datatype Claims = Claims(id: Id, iat: int, exp: int)

  /** '30d' in seconds. */
  const ExpiresIn: int := 30 * 24 * 60 * 60

  /** A NumericDate (section 2 of RFC 7519) from a millisecond clock:
      `Math.floor(Date.now() / 1000)`. */
  function NumericDate(nowMs: int): int {
    nowMs / 1000
  }

  /** Signing and opening a compact token under a secret. */
  datatype Signer = Signer(sign: (string, Claims) -> string, open: (string, string) -> Option<Claims>)

  /** The contract relied on: a token opens, under the secret that signed it,
      to the claims it was signed with; it never opens under another secret;
      and it is a non-empty string without spaces (the compact serialisation
      uses only base64url characters and '.'). */
  ghost predicate SoundSigner(s: Signer) {
    && (forall key, c :: s.open(key, s.sign(key, c)) == Some(c))
    && (forall key, c :: s.sign(key, c) != "" && ' ' !in s.sign(key, c))
    && (forall key, other, c :: key != other ==> s.open(other, s.sign(key, c)) == None)
  }

  /** The process-wide configuration `process.env.JWT_SECRET`, made explicit. */
  datatype TokenConfig = TokenConfig(signer: Signer, secret: string)

  function IssueClaims(id: Id, nowMs: int): Claims {
    var iat := NumericDate(nowMs);
    Claims(id, iat, iat + ExpiresIn)
  }

  /** The claims issued at `nowMs` name the user and expire 30 days after issue. */
  lemma IssuedClaimsExpireIn30Days(id: Id, nowMs: int)
    ensures IssueClaims(id, nowMs).id == id
    ensures IssueClaims(id, nowMs).exp - IssueClaims(id, nowMs).iat == 2592000
    ensures IssueClaims(id, nowMs).iat * 1000 <= nowMs < IssueClaims(id, nowMs).iat * 1000 + 1000
  {}

  /** `generateToken(id)` at clock time `nowMs`. */
  function GenerateToken(cfg: TokenConfig, id: Id, nowMs: int): string {
    cfg.signer.sign(cfg.secret, IssueClaims(id, nowMs))
  }

  /** The three outcomes of `jwt.verify`: the decoded id, a `TokenExpiredError`,
      or any other `JsonWebTokenError` (bad signature, malformed token). */
  datatype Verdict = Verified(id: Id) | Expired | Invalid

  /** `jwt.verify(token, secret)` at clock time `nowMs`: a token that does not
      open is invalid; one that opens is expired once the clock has reached
      its `exp` (RFC 7519 requires the current time to be before it). */
  function Verify(cfg: TokenConfig, token: string, nowMs: int): Verdict {
    match cfg.signer.open(cfg.secret, token)
    case None => Invalid
    case Some(c) => if NumericDate(nowMs) >= c.exp then Expired else Verified(c.id)
  }

  /** A token issued at `t0` verifies to its user while the clock's second
      is before the expiry second, and is expired from then on. */
  lemma VerifyIssued(cfg: TokenConfig, id: Id, t0: int, t1: int)
    requires SoundSigner(cfg.signer)
    ensures Verify(cfg, GenerateToken(cfg, id, t0), t1) ==
      if t1 / 1000 < t0 / 1000 + ExpiresIn then Verified(id) else Expired
  {
    var c := IssueClaims(id, t0);
    assert cfg.signer.open(cfg.secret, cfg.signer.sign(cfg.secret, c)) == Some(c);
  }

  /** In milliseconds: valid for at least 30 days less one second after
      issue, and expired from 30 days after issue on. */
  lemma TokenLifetime(cfg: TokenConfig, id: Id, t0: int, t1: int)
    requires SoundSigner(cfg.signer)
    ensures t1 <= t0 + (ExpiresIn - 1) * 1000 ==> Verify(cfg, GenerateToken(cfg, id, t0), t1) == Verified(id)
    ensures t1 >= t0 + ExpiresIn * 1000 ==> Verify(cfg, GenerateToken(cfg, id, t0), t1) == Expired
  {
    VerifyIssued(cfg, id, t0, t1);
  }

  /** A token signed with a different secret is invalid, never expired or verified. */
  lemma ForeignSecretInvalid(signer: Signer, key: string, other: string, id: Id, t0: int, t1: int)
    requires SoundSigner(signer)
    requires key != other
    ensures Verify(TokenConfig(signer, other), GenerateToken(TokenConfig(signer, key), id, t0), t1) == Invalid
  {
    var c := IssueClaims(id, t0);
    assert signer.open(other, signer.sign(key, c)) == None;
  }

  /** Issued tokens are non-empty and contain no space. */
  lemma TokenShape(cfg: TokenConfig, id: Id, t0: int)
    requires SoundSigner(cfg.signer)
    ensures GenerateToken(cfg, id, t0) != "" && ' ' !in GenerateToken(cfg, id, t0)
  {
    var c := IssueClaims(id, t0);
    assert cfg.signer.sign(cfg.secret, c) != "" && ' ' !in cfg.signer.sign(cfg.secret, c);
  }
}
