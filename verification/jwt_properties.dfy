/** What the token service promises, stated over the service's current configuration. */
module JwtProperties {
  import opened Wrappers
  import opened Jwt

  /** Validation never fails loudly on a null, empty or blank token, and extraction
      raises IllegalArgument for a null or empty one before any parsing. */
  lemma EmptyTokenRejected(jwt: JwtService, now: Instant)
    ensures !jwt.IsTokenValid(None, now) && !jwt.IsTokenValid(Some(""), now)
    ensures !jwt.IsTokenValid(Some(" \t"), now)
    ensures jwt.ExtractAllClaims(None, now) == Err(IllegalArgument)
    ensures jwt.ExtractAllClaims(Some(""), now) == Err(IllegalArgument)
  {
  }

  /** Validation is at least as strict as extraction: whatever it accepts, extraction
      accepts at the same instant and yields its subject. */
  lemma ValidTokenIsExtractable(jwt: JwtService, token: Option<string>, now: Instant)
    requires jwt.IsTokenValid(token, now)
    ensures jwt.ExtractAllClaims(token, now).Ok?
    ensures jwt.ExtractUsername(token, now).Ok?
  {
  }

  /** Validation grants no skew, extraction grants 60 s: a verified token that expired
      at most 60 s ago is refused by one and accepted by the other. */
  lemma SkewOnlyOnExtraction(jwt: JwtService, token: string, now: Instant)
    requires HasText(token) && jwt.SignInKey().Ok?
    requires jwt.codec.decode(token, jwt.SignInKey().value).Ok?
    requires Expiration(jwt.codec.decode(token, jwt.SignInKey().value).value).Some?
    requires now - ALLOWED_CLOCK_SKEW_MILLIS <= Expiration(jwt.codec.decode(token, jwt.SignInKey().value).value).value <= now
    ensures !jwt.IsTokenValid(Some(token), now)
    ensures jwt.ExtractAllClaims(Some(token), now).Ok?
  {
  }

  /** A token whose expiration is more than 60 s in the past is refused by extraction
      with Expired. */
  lemma ExtractionRejectsStaleTokens(jwt: JwtService, token: string, now: Instant)
    requires HasText(token) && jwt.SignInKey().Ok?
    requires jwt.codec.decode(token, jwt.SignInKey().value).Ok?
    requires Expiration(jwt.codec.decode(token, jwt.SignInKey().value).value).Some?
    requires Expiration(jwt.codec.decode(token, jwt.SignInKey().value).value).value < now - ALLOWED_CLOCK_SKEW_MILLIS
    ensures jwt.ExtractAllClaims(Some(token), now) == Err(Expired)
  {
  }

  /** A token issued by the service carries the username as subject, whatever `sub`
      the extra claims held, and extraction gives it back until 60 s after expiry. */
  lemma IssuedTokenRoundTrip(jwt: JwtService, extraClaims: Claims, user: UserDetails, issuedAt: Instant, now: Instant)
    requires Sound(jwt.codec)
    requires jwt.GenerateTokenWith(extraClaims, user, issuedAt).Ok?
    requires now - ALLOWED_CLOCK_SKEW_MILLIS <= AddLong(issuedAt, jwt.jwtExpiration)
    ensures jwt.ExtractUsername(Some(jwt.GenerateTokenWith(extraClaims, user, issuedAt).value), now) == Ok(Some(user.username))
  {
  }

  /** With a lifetime that does not overflow, a freshly generated token is
      valid at every instant before issue time + lifetime, and invalid from then on
      (a lifetime of zero or less gives a token that is already expired). */
  lemma GeneratedTokenValidUntilExpiry(jwt: JwtService, user: UserDetails, issuedAt: Instant, now: Instant)
    requires Sound(jwt.codec)
    requires jwt.GenerateToken(user, issuedAt).Ok?
    requires issuedAt + jwt.jwtExpiration <= LONG_MAX
    ensures jwt.IsTokenValid(Some(jwt.GenerateToken(user, issuedAt).value), now) <==> now < issuedAt + jwt.jwtExpiration
  {
  }

  /** A lifetime so long that now + lifetime overflows a Java long wraps to a date
      before the epoch: such a token is never valid. */
  lemma OverflowingLifetimeNeverValid(jwt: JwtService, user: UserDetails, issuedAt: Instant, now: Instant)
    requires Sound(jwt.codec)
    requires jwt.GenerateToken(user, issuedAt).Ok?
    requires issuedAt + jwt.jwtExpiration > LONG_MAX
    ensures !jwt.IsTokenValid(Some(jwt.GenerateToken(user, issuedAt).value), now)
  {
  }

  /** Tokens signed under a key that HMAC tells apart from the one decoded from the
      current secret are refused by both validation and extraction. */
  lemma ForeignKeyRejected(jwt: JwtService, claims: Claims, otherKey: Key, now: Instant)
    requires Sound(jwt.codec)
    requires jwt.SignInKey().Ok? && DistinctHmacKeys(otherKey, jwt.SignInKey().value)
    ensures !jwt.IsTokenValid(Some(jwt.codec.encode(claims, otherKey)), now)
    ensures jwt.ExtractAllClaims(Some(jwt.codec.encode(claims, otherKey)), now).Err?
  {
  }

  /** After the setters, signing and verifying both use the key decoded from the last
      secret set, and the reported lifetime is the last one set. */
  method ReconfigureService(jwt: JwtService, secret: string, lifetime: Long) returns (reported: Long)
    modifies jwt
    ensures jwt.secretKey == secret && jwt.jwtExpiration == lifetime
    ensures jwt.codec.base64Decode(secret).Some? && |jwt.codec.base64Decode(secret).value| * 8 >= MIN_HMAC_KEY_BITS ==>
      jwt.SignInKey() == Ok(jwt.codec.base64Decode(secret).value)
    ensures reported == lifetime
  {
    jwt.SetJwtExpiration(lifetime);
    jwt.SetSecretKey(secret);
    reported := jwt.GetExpirationTime();
  }
}
