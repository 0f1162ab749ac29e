/** The token service: issuance, validation and claim extraction of compact JWS tokens
    (RFC 7519 tokens in the compact serialization of section 7.1 of RFC 7515, signed with
    HS256 as in section 3.2 of RFC 7518). The JWT library is an abstract collaborator,
    a `Codec`, whose guarantees are collected in the ghost predicate `Sound`. */
module Jwt {
  import opened Wrappers

  /** Java `long`. */
  const LONG_MIN: int := -0x8000_0000_0000_0000
  const LONG_MAX: int := 0x7FFF_FFFF_FFFF_FFFF
  type Long = x: int | LONG_MIN <= x <= LONG_MAX

  /** A wall-clock reading in milliseconds since the epoch, passed in explicitly. */
  type Instant = t: int | 0 <= t <= LONG_MAX

  /** The clock skew, in seconds, that claim extraction tolerates. */
  const ALLOWED_CLOCK_SKEW_SECONDS: int := 60
  const ALLOWED_CLOCK_SKEW_MILLIS: int := ALLOWED_CLOCK_SKEW_SECONDS * 1000

  /** The smallest HMAC key, in bits, that the library accepts for HS256. */
  const MIN_HMAC_KEY_BITS: int := 256

  /** Java's `long` addition, which wraps around on overflow. */
  function AddLong(a: Long, b: Long): (r: Long)
    ensures LONG_MIN <= a + b <= LONG_MAX ==> r == a + b
    ensures a + b > LONG_MAX ==> r == a + b - 0x1_0000_0000_0000_0000
    ensures a + b < LONG_MIN ==> r == a + b + 0x1_0000_0000_0000_0000
  {
    var s := a + b;
    if s > LONG_MAX then s - 0x1_0000_0000_0000_0000
    else if s < LONG_MIN then s + 0x1_0000_0000_0000_0000
    else s
  }

  /** A claim value: a string or a number (dates are numbers of milliseconds). */
  datatype ClaimValue = Str(s: string) | Num(n: int)

  /** The claims body of a token, keyed by claim name. */
  type Claims = map<string, ClaimValue>

  const SUBJECT: string := "sub"
  const ISSUED_AT: string := "iat"
  const EXPIRATION: string := "exp"

  /** The decimal digits of a natural number. */
  function DecimalDigits(n: nat): string
    decreases n
  {
    var last := "0123456789"[n % 10];
    if n < 10 then [last] else DecimalDigits(n / 10) + [last]
  }

  /** Java's `String.valueOf` of an integral number. */
  function Decimal(n: int): string
  {
    if n < 0 then "-" + DecimalDigits(-n) else DecimalDigits(n)
  }

  /** `Claims.getSubject()`: absent when there is no "sub"; a number is turned into its
      decimal string. */
  function Subject(c: Claims): (r: Option<string>)
    ensures r.None? <==> SUBJECT !in c
    ensures SUBJECT in c && c[SUBJECT].Str? ==> r == Some(c[SUBJECT].s)
    ensures SUBJECT in c && c[SUBJECT].Num? ==> r == Some(Decimal(c[SUBJECT].n))
  {
    if SUBJECT !in c then None
    else match c[SUBJECT]
      case Str(s) => Some(s)
      case Num(n) => Some(Decimal(n))
  }

  /** `Claims.getIssuedAt()`: absent unless "iat" holds a number. */
  function IssuedAt(c: Claims): Option<int>
  {
    if ISSUED_AT in c && c[ISSUED_AT].Num? then Some(c[ISSUED_AT].n) else None
  }

  /** `Claims.getExpiration()`: absent unless "exp" holds a number. */
  function Expiration(c: Claims): Option<int>
  {
    if EXPIRATION in c && c[EXPIRATION].Num? then Some(c[EXPIRATION].n) else None
  }

  /** HMAC key material. */
  type Key = seq<bv8>

  /** HMAC-SHA256 pads a key shorter than its 64-byte block with zero bytes, so keys that
      differ only by trailing zero bytes sign alike. */
  const HMAC_SHA256_BLOCK_BYTES: int := 64

  /** Two keys of at most one block that HMAC-SHA256 tells apart. Longer keys are first
      hashed by HMAC; nothing is assumed about them. */
  predicate DistinctHmacKeys(k1: Key, k2: Key)
  {
    && |k1| <= HMAC_SHA256_BLOCK_BYTES && |k2| <= HMAC_SHA256_BLOCK_BYTES
    && k1 + seq(HMAC_SHA256_BLOCK_BYTES - |k1|, _ => 0 as bv8) != k2 + seq(HMAC_SHA256_BLOCK_BYTES - |k2|, _ => 0 as bv8)
  }

  /** `Character.isWhitespace`. */
  predicate IsJavaWhitespace(ch: char)
  {
    || '\t' <= ch <= '\r' || '\U{001C}' <= ch <= ' '
    || ch == '\U{1680}' || '\U{2000}' <= ch <= '\U{2006}' || '\U{2008}' <= ch <= '\U{200A}'
    || ch == '\U{2028}' || ch == '\U{2029}' || ch == '\U{205F}' || ch == '\U{3000}'
  }

  /** The library's `hasText`: some character is not whitespace. */
  predicate HasText(s: string)
  {
    exists i :: 0 <= i < |s| && !IsJavaWhitespace(s[i])
  }

  /** Why the library refuses a token: not a compact JWS with a claims body, or a
      signature that does not verify under the key. */
  datatype DecodeError = Malformed | BadSignature

  /** Everything the token service can raise. */
  datatype JwtError =
    | IllegalArgument   // null, empty or whitespace-only token
    | InvalidKey        // the configured secret is not base64
    | WeakKey           // the decoded secret is shorter than 256 bits
    | Undecodable(reason: DecodeError)  // malformed, or the signature does not verify
    | Expired           // the expiration is further in the past than the allowed skew

  /** The JWT library, as seen by the service. */
  datatype Codec = Codec(
    base64Decode: string -> Option<seq<bv8>>,
    encode: (Claims, Key) -> string,
    decode: (string, Key) -> Result<Claims, DecodeError>)

  /** What the service relies on the library for. */
  ghost predicate Sound(codec: Codec)
  {
    // a signed token decodes, under the signing key, to the claims it was built from
    && (forall c, k :: codec.decode(codec.encode(c, k), k) == Ok(c))
    // a compact token always has text (at least its two dots)
    && (forall c, k :: HasText(codec.encode(c, k)))
    // a token signed under one key does not verify under a key HMAC tells apart from it
    && (forall c, k1, k2 :: DistinctHmacKeys(k1, k2) ==> codec.decode(codec.encode(c, k1), k2).Err?)
  }

  /** The library's `parseClaimsJws` with a signing key and an allowed skew:
      rejects a null, empty or whitespace-only string before parsing, verifies the signature, and rejects
      a token whose expiration lies more than the skew before now. */
  function ParseClaimsJws(codec: Codec, key: Key, token: Option<string>, skewMillis: nat, now: Instant)
    : (r: Result<Claims, JwtError>)
    ensures r.Ok? <==>
      && token.Some? && HasText(token.value)
      && codec.decode(token.value, key).Ok?
      && (Expiration(codec.decode(token.value, key).value).Some? ==>
            now - skewMillis <= Expiration(codec.decode(token.value, key).value).value)
    ensures r.Ok? ==> r.value == codec.decode(token.value, key).value
    ensures token.None? || !HasText(token.value) ==> r == Err(IllegalArgument)
  {
    if token.None? || !HasText(token.value) then Err(IllegalArgument)
    else match codec.decode(token.value, key)
      case Err(reason) => Err(Undecodable(reason))
      case Ok(claims) =>
        if Expiration(claims).Some? && now - skewMillis > Expiration(claims).value then Err(Expired)
        else Ok(claims)
  }

  /** The claims `buildToken` signs: the extra claims, then `sub`, `iat` and `exp`
      set over them in that order. */
  function TokenClaims(extraClaims: Claims, username: string, issuedAt: int, expiresAt: int): (c: Claims)
    ensures Subject(c) == Some(username)
    ensures IssuedAt(c) == Some(issuedAt)
    ensures Expiration(c) == Some(expiresAt)
    ensures c.Keys == extraClaims.Keys + {SUBJECT, ISSUED_AT, EXPIRATION}
    ensures forall name :: name in extraClaims && name !in {SUBJECT, ISSUED_AT, EXPIRATION} ==>
      c[name] == extraClaims[name]
  {
    extraClaims[SUBJECT := Str(username)][ISSUED_AT := Num(issuedAt)][EXPIRATION := Num(expiresAt)]
  }

  /** The part of Spring's `UserDetails` that the service reads. */
  datatype UserDetails = UserDetails(username: string)

  /** The token service. The secret and the lifetime are mutable configuration. */
  class JwtService {
    const codec: Codec
    /** Base64-encoded signing secret. */
    var secretKey: string
    /** Lifetime of issued tokens, in milliseconds. */
    var jwtExpiration: Long

    constructor (codec: Codec, secretKey: string, jwtExpiration: Long)
      ensures this.codec == codec
      ensures this.secretKey == secretKey && this.jwtExpiration == jwtExpiration
    {
      this.codec := codec;
      this.secretKey := secretKey;
      this.jwtExpiration := jwtExpiration;
    }

    method SetSecretKey(secretKey: string)
      modifies this
      ensures this.secretKey == secretKey && jwtExpiration == old(jwtExpiration)
    {
      this.secretKey := secretKey;
    }

    method SetJwtExpiration(jwtExpiration: Long)
      modifies this
      ensures this.jwtExpiration == jwtExpiration && secretKey == old(secretKey)
    {
      this.jwtExpiration := jwtExpiration;
    }

    method GetExpirationTime() returns (expiration: Long)
      ensures expiration == jwtExpiration
    {
      expiration := jwtExpiration;
    }

    /** The key used for signing and for verifying: the current secret, base64-decoded,
        refused when it is not base64 or shorter than 256 bits. */
    function SignInKey(): (r: Result<Key, JwtError>)
      reads this
      ensures codec.base64Decode(secretKey).None? ==> r == Err(InvalidKey)
      ensures codec.base64Decode(secretKey).Some? ==>
        if |codec.base64Decode(secretKey).value| * 8 < MIN_HMAC_KEY_BITS then r == Err(WeakKey)
        else r == Ok(codec.base64Decode(secretKey).value)
    {
      match codec.base64Decode(secretKey)
      case None => Err(InvalidKey)
      case Some(bytes) => if |bytes| * 8 >= MIN_HMAC_KEY_BITS then Ok(bytes) else Err(WeakKey)
    }

    /** Never raises: every failure of key decoding, parsing, signature or expiry gives
        false. Parsing allows no skew, and the expiration must then lie strictly after now. */
    predicate IsTokenValid(token: Option<string>, now: Instant)
      reads this
      ensures IsTokenValid(token, now) <==>
        && token.Some? && HasText(token.value)
        && SignInKey().Ok?
        && codec.decode(token.value, SignInKey().value).Ok?
        && Expiration(codec.decode(token.value, SignInKey().value).value).Some?
        && Expiration(codec.decode(token.value, SignInKey().value).value).value > now
    {
      match SignInKey()
      case Err(_) => false
      case Ok(key) =>
        match ParseClaimsJws(codec, key, token, 0, now)
        case Err(_) => false
        case Ok(claims) => Expiration(claims).Some? && Expiration(claims).value > now
    }

    /** Rejects a null or empty token before anything else, then parses with 60 s of skew
        (the parser itself refuses a whitespace-only token with the same exception). */
    function ExtractAllClaims(token: Option<string>, now: Instant): (r: Result<Claims, JwtError>)
      reads this
      ensures token.None? || token.value == [] ==> r == Err(IllegalArgument)
      ensures token.Some? && token.value != [] && !HasText(token.value) && SignInKey().Ok? ==>
        r == Err(IllegalArgument)
      ensures r.Ok? <==>
        && token.Some? && HasText(token.value)
        && SignInKey().Ok?
        && codec.decode(token.value, SignInKey().value).Ok?
        && (Expiration(codec.decode(token.value, SignInKey().value).value).Some? ==>
              now - ALLOWED_CLOCK_SKEW_MILLIS <= Expiration(codec.decode(token.value, SignInKey().value).value).value)
      ensures r.Ok? ==> r.value == codec.decode(token.value, SignInKey().value).value
    {
      if token.None? || token.value == [] then Err(IllegalArgument)
      else match SignInKey()
        case Err(e) => Err(e)
        case Ok(key) => ParseClaimsJws(codec, key, token, ALLOWED_CLOCK_SKEW_MILLIS, now)
    }

    /** The subject of a token that extraction accepts; the extraction error otherwise. */
    function ExtractUsername(token: Option<string>, now: Instant): (r: Result<Option<string>, JwtError>)
      reads this
      ensures r.Ok? <==> ExtractAllClaims(token, now).Ok?
      ensures r.Ok? ==> r.value == Subject(ExtractAllClaims(token, now).value)
      ensures r.Err? ==> r.error == ExtractAllClaims(token, now).error
    {
      match ExtractAllClaims(token, now)
      case Ok(claims) => Ok(Subject(claims))
      case Err(e) => Err(e)
    }

    /** Signs `extraClaims` overridden by `sub` = the username, `iat` = now and
        `exp` = now + expiration (Java long arithmetic) with the current key. */
    function BuildToken(extraClaims: Claims, user: UserDetails, expiration: Long, now: Instant)
      : (r: Result<string, JwtError>)
      reads this
      ensures r.Ok? <==> SignInKey().Ok?
      ensures r.Err? ==> r.error == SignInKey().error
      ensures r.Ok? ==> r.value == codec.encode(
        TokenClaims(extraClaims, user.username, now, AddLong(now, expiration)), SignInKey().value)
    {
      var claims := TokenClaims(extraClaims, user.username, now, AddLong(now, expiration));
      match SignInKey()
      case Err(e) => Err(e)
      case Ok(key) => Ok(codec.encode(claims, key))
    }

    /** `generateToken(extraClaims, user)`: the configured lifetime. */
    function GenerateTokenWith(extraClaims: Claims, user: UserDetails, now: Instant): (r: Result<string, JwtError>)
      reads this
      ensures r.Ok? <==> SignInKey().Ok?
      ensures r.Ok? ==> r.value == codec.encode(
        TokenClaims(extraClaims, user.username, now, AddLong(now, jwtExpiration)), SignInKey().value)
    {
      BuildToken(extraClaims, user, jwtExpiration, now)
    }

    /** `generateToken(user)`: no extra claims and the configured lifetime. */
    function GenerateToken(user: UserDetails, now: Instant): (r: Result<string, JwtError>)
      reads this
      ensures r.Ok? <==> SignInKey().Ok?
      ensures r.Ok? ==> r.value == codec.encode(
        map[SUBJECT := Str(user.username), ISSUED_AT := Num(now), EXPIRATION := Num(AddLong(now, jwtExpiration))],
        SignInKey().value)
    {
      GenerateTokenWith(map[], user, now)
    }
  }
}
