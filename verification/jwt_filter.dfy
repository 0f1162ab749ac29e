/** The per-request authentication gate: reads the `Authorization` header, and either
    passes the request on untouched, authenticates it and passes it on, or answers 401. */
module JwtFilter {
  import opened Wrappers
  import opened Jwt
  import JwtProperties
  import opened HttpStatus

  /** The bearer scheme of section 2.1 of RFC 6750, matched case-sensitively. */
  const BEARER_PREFIX: string := "Bearer "

  datatype HttpMethod = Get | Post | Put | Delete | Patch | Head | Options | Trace

  /** The parts of an HTTP request the security stages read: the method, the route and
      the `Authorization` header. */
  datatype Request = Request(httpMethod: HttpMethod, path: string, authorization: Option<string>)

  /** Spring's `UsernamePasswordAuthenticationToken` built by the gate. */
  datatype Authentication = Authentication(principal: Option<string>, credentials: Option<string>, authorities: seq<string>)

  /** `String.startsWith`. */
  predicate StartsWith(s: string, prefix: string)
  {
    |prefix| <= |s| && s[..|prefix|] == prefix
  }

  /** What the gate decides for one request. */
  datatype GateDecision = PassThrough | Authenticate(principal: Option<string>) | Reject

  /** The candidate token: the header with its first seven characters removed. */
  function BearerToken(header: string): (token: string)
    requires StartsWith(header, BEARER_PREFIX)
    ensures header == BEARER_PREFIX + token
  {
    header[|BEARER_PREFIX|..]
  }

  /** The gate's decision. A valid token authenticates its subject; extraction of the
      subject cannot fail there, because validation is stricter than extraction. */
  function Decide(jwt: JwtService, authorization: Option<string>, now: Instant): (d: GateDecision)
    reads jwt
    ensures d.PassThrough? <==> authorization.None? || !StartsWith(authorization.value, BEARER_PREFIX)
    ensures d.Reject? <==>
      authorization.Some? && StartsWith(authorization.value, BEARER_PREFIX)
      && !jwt.IsTokenValid(Some(BearerToken(authorization.value)), now)
    ensures d.Authenticate? ==>
      jwt.IsTokenValid(Some(BearerToken(authorization.value)), now)
      && jwt.ExtractUsername(Some(BearerToken(authorization.value)), now) == Ok(d.principal)
  {
    if authorization.None? || !StartsWith(authorization.value, BEARER_PREFIX) then PassThrough
    else
      var token := Some(BearerToken(authorization.value));
      if jwt.IsTokenValid(token, now) then
        JwtProperties.ValidTokenIsExtractable(jwt, token, now);
        Authenticate(jwt.ExtractUsername(token, now).value)
      else Reject
  }

  /** The servlet response; only its status is written here. */
  class HttpResponse {
    var status: int
    constructor ()
      ensures status == SC_OK
    {
      status := SC_OK;
    }
  }

  /** The request's security context slot. */
  class SecurityContext {
    var authentication: Option<Authentication>
    constructor ()
      ensures authentication.None?
    {
      authentication := None;
    }
  }

  /** A call of the rest of the chain, with the authentication in place when it ran. */
  datatype Invocation = Invocation(request: Request, authentication: Option<Authentication>)

  /** The downstream filters and handler, recorded as the calls they receive. */
  class FilterChain {
    var invocations: seq<Invocation>
    constructor ()
      ensures invocations == []
    {
      invocations := [];
    }

    method DoFilter(request: Request, response: HttpResponse, context: SecurityContext)
      modifies this
      ensures invocations == old(invocations) + [Invocation(request, context.authentication)]
    {
      invocations := invocations + [Invocation(request, context.authentication)];
    }
  }

  class JwtAuthenticationFilter {
    const jwtService: JwtService

    constructor (jwtService: JwtService)
      ensures this.jwtService == jwtService
    {
      this.jwtService := jwtService;
    }

    /** Downstream runs exactly once unless the token is rejected, and then not at all;
        the context is written only on success and the status only on rejection. */
    method DoFilterInternal(request: Request, response: HttpResponse, context: SecurityContext,
                            chain: FilterChain, now: Instant)
      modifies response, context, chain
      ensures var d := Decide(jwtService, request.authorization, now);
        && context.authentication ==
             (if d.Authenticate? then Some(Authentication(d.principal, None, [])) else old(context.authentication))
        && response.status == (if d.Reject? then SC_UNAUTHORIZED else old(response.status))
        && chain.invocations ==
             old(chain.invocations) + (if d.Reject? then [] else [Invocation(request, context.authentication)])
    {
      var authHeader := request.authorization;
      if authHeader.None? || !StartsWith(authHeader.value, BEARER_PREFIX) {
        chain.DoFilter(request, response, context);
        return;
      }
      var jwt := authHeader.value[7..];
      assert jwt == BearerToken(authHeader.value);
      if jwtService.IsTokenValid(Some(jwt), now) {
        var username := jwtService.ExtractUsername(Some(jwt), now);
        JwtProperties.ValidTokenIsExtractable(jwtService, Some(jwt), now);
        context.authentication := Some(Authentication(username.value, None, []));
      } else {
        response.status := SC_UNAUTHORIZED;
        return;
      }
      chain.DoFilter(request, response, context);
    }
  }

  /** A header that is exactly the prefix yields the empty token, which is rejected. */
  lemma BarePrefixRejected(jwt: JwtService, now: Instant)
    ensures Decide(jwt, Some(BEARER_PREFIX), now) == Reject
  {
  }

  /** The prefix match is case-sensitive: a lower-case scheme passes through. */
  lemma LowerCaseSchemePassesThrough(jwt: JwtService, token: string, now: Instant)
    ensures Decide(jwt, Some("bearer " + token), now) == PassThrough
  {
  }

  /** The token validated is exactly what follows the prefix. */
  lemma TokenFollowsPrefix(jwt: JwtService, token: string, now: Instant)
    ensures Decide(jwt, Some(BEARER_PREFIX + token), now) ==
      if jwt.IsTokenValid(Some(token), now) then Authenticate(jwt.ExtractUsername(Some(token), now).value)
      else Reject
  {
  }

  /** End to end with the service: a freshly issued token, presented as a bearer
      credential before it expires, authenticates its user. */
  lemma IssuedTokenAuthenticates(jwt: JwtService, user: UserDetails, issuedAt: Instant, now: Instant)
    requires Sound(jwt.codec)
    requires jwt.GenerateToken(user, issuedAt).Ok?
    requires issuedAt + jwt.jwtExpiration <= LONG_MAX
    requires now < issuedAt + jwt.jwtExpiration
    ensures Decide(jwt, Some(BEARER_PREFIX + jwt.GenerateToken(user, issuedAt).value), now) == Authenticate(Some(user.username))
  {
  }
}
