/** The security policy built by `filterChain` and the per-request pipeline it yields:
    stateless sessions, the JWT gate ahead of the username/password stage, and an
    "authenticated" rule for every request. */
module SecurityConfig {
  import opened Wrappers
  import opened Jwt
  import opened JwtFilter

  datatype SessionCreationPolicy = Always | IfRequired | Never | Stateless

  /** The authorization rule: every request must be authenticated, or none need be. */
  datatype AuthorizationRule = AnyRequestAuthenticated | AnyRequestPermitted

  /** The stages of the built chain that matter here, in order. Spring's default logout
      stage stays in the chain and comes before the gate; the username/password stage is
      the anchor the gate is placed before, and since form login is not configured it
      authenticates nothing. */
  datatype Stage = Logout | JwtGate | UsernamePasswordAuthentication | AuthorizationCheck

  /** The route of Spring's default logout stage. */
  const LOGOUT_PATH: string := "/logout"

  /** The default logout stage answers POST /logout, and with CSRF protection disabled
      also GET, PUT and DELETE /logout. */
  predicate LogoutMatches(csrfEnabled: bool, request: Request)
  {
    && request.path == LOGOUT_PATH
    && (if csrfEnabled then request.httpMethod == Post
        else request.httpMethod in {Get, Post, Put, Delete})
  }

  datatype HttpSecurity = HttpSecurity(
    csrfEnabled: bool,
    rule: AuthorizationRule,
    sessionPolicy: SessionCreationPolicy,
    stages: seq<Stage>)

  /** Where a request ends up. `AccessDenied` is answered with Spring's default status
      and `LoggedOut` with the default logout redirect; this configuration chooses
      neither. */
  datatype Outcome =
    | LoggedOut
    | Handled(authentication: Option<Authentication>)
    | Unauthorized
    | AccessDenied

  /** Position of a stage in a chain. */
  function IndexOf(stages: seq<Stage>, s: Stage): (i: nat)
    requires s in stages
    ensures i < |stages| && stages[i] == s
    ensures forall j :: 0 <= j < i ==> stages[j] != s
  {
    if stages[0] == s then 0 else 1 + IndexOf(stages[1..], s)
  }

  /** The configuration `filterChain` builds. */
  function SecurityFilterChain(): (http: HttpSecurity)
    ensures !http.csrfEnabled
    ensures http.rule == AnyRequestAuthenticated
    ensures http.sessionPolicy == Stateless
    ensures Logout in http.stages && JwtGate in http.stages
    ensures UsernamePasswordAuthentication in http.stages && AuthorizationCheck in http.stages
    ensures IndexOf(http.stages, Logout) < IndexOf(http.stages, JwtGate)
              < IndexOf(http.stages, UsernamePasswordAuthentication)
              < IndexOf(http.stages, AuthorizationCheck)
  {
    HttpSecurity(false, AnyRequestAuthenticated, Stateless,
                 [Logout, JwtGate, UsernamePasswordAuthentication, AuthorizationCheck])
  }

  /** Runs the stages of a chain in order with the current security context. Under the
      "authenticated" rule, a request that passes an authorization stage and reaches the
      handler carries an authentication; a context once set is never cleared. */
  function RunStages(stages: seq<Stage>, http: HttpSecurity, jwt: JwtService,
                     request: Request, context: Option<Authentication>, now: Instant): (r: Outcome)
    reads jwt
    decreases |stages|
    ensures r.Handled? && context.Some? ==> r.authentication.Some?
    ensures r.Handled? && http.rule == AnyRequestAuthenticated && AuthorizationCheck in stages ==>
      r.authentication.Some?
    ensures r.LoggedOut? ==> Logout in stages && LogoutMatches(http.csrfEnabled, request)
    ensures r.Unauthorized? ==> JwtGate in stages
    ensures r.AccessDenied? ==> AuthorizationCheck in stages && http.rule == AnyRequestAuthenticated
  {
    if stages == [] then Handled(context)
    else
      match stages[0]
      case Logout =>
        if LogoutMatches(http.csrfEnabled, request) then LoggedOut
        else RunStages(stages[1..], http, jwt, request, context, now)
      case JwtGate =>
        (match Decide(jwt, request.authorization, now)
         case PassThrough => RunStages(stages[1..], http, jwt, request, context, now)
         case Authenticate(p) => RunStages(stages[1..], http, jwt, request, Some(Authentication(p, None, [])), now)
         case Reject => Unauthorized)
      case UsernamePasswordAuthentication => RunStages(stages[1..], http, jwt, request, context, now)
      case AuthorizationCheck =>
        if http.rule == AnyRequestAuthenticated && context.None? then AccessDenied
        else RunStages(stages[1..], http, jwt, request, context, now)
  }

  /** One request through a chain. A stateless chain starts from an empty context; any
      other policy restores the authentication kept in the session. */
  function Serve(http: HttpSecurity, jwt: JwtService, request: Request,
                 session: Option<Authentication>, now: Instant): (r: Outcome)
    reads jwt
    ensures http.sessionPolicy == Stateless ==>
      r == RunStages(http.stages, http, jwt, request, None, now)
    ensures http.sessionPolicy != Stateless ==>
      r == RunStages(http.stages, http, jwt, request, session, now)
  {
    var initial := if http.sessionPolicy == Stateless then None else session;
    RunStages(http.stages, http, jwt, request, initial, now)
  }

  /** With the configured chain, each request's outcome is fixed by the logout route and
      the gate: the logout redirect for a logout request, otherwise 401 on a rejected
      token, denial without a principal, the handler with the token's subject. */
  lemma ConfiguredChainOutcome(jwt: JwtService, request: Request, session: Option<Authentication>, now: Instant)
    ensures Serve(SecurityFilterChain(), jwt, request, session, now) ==
      if LogoutMatches(false, request) then LoggedOut
      else match Decide(jwt, request.authorization, now)
        case PassThrough => AccessDenied
        case Reject => Unauthorized
        case Authenticate(p) => Handled(Some(Authentication(p, None, [])))
  {
    var http := SecurityFilterChain();
    var gated: seq<Stage> := [JwtGate, UsernamePasswordAuthentication, AuthorizationCheck];
    assert http.stages[1..] == gated;
    assert gated[1..] == [UsernamePasswordAuthentication, AuthorizationCheck];
    if !LogoutMatches(false, request) {
      assert Serve(http, jwt, request, session, now) == RunStages(gated, http, jwt, request, None, now);
      match Decide(jwt, request.authorization, now)
      case PassThrough =>
        AfterGate(jwt, request, None, now);
      case Authenticate(p) =>
        AfterGate(jwt, request, Some(Authentication(p, None, [])), now);
      case Reject =>
    }
  }

  /** The stages after the gate in the configured chain: deny without a principal,
      otherwise hand the request over with the context as it is. */
  lemma AfterGate(jwt: JwtService, request: Request, context: Option<Authentication>, now: Instant)
    ensures RunStages([UsernamePasswordAuthentication, AuthorizationCheck], SecurityFilterChain(),
                      jwt, request, context, now) == (if context.None? then AccessDenied else Handled(context))
  {
    var rest: seq<Stage> := [UsernamePasswordAuthentication, AuthorizationCheck];
    assert rest[1..] == [AuthorizationCheck];
    var last: seq<Stage> := [AuthorizationCheck];
    assert last[1..] == [];
    assert RunStages([], SecurityFilterChain(), jwt, request, context, now) == Handled(context);
  }

  /** The logout route is answered before the gate reads any header: whatever the
      request carries, a logout request is redirected and reaches no handler. */
  lemma LogoutAnsweredBeforeGate(jwt: JwtService, request: Request, session: Option<Authentication>, now: Instant)
    ensures Serve(SecurityFilterChain(), jwt, request, session, now) == LoggedOut <==>
      request.path == LOGOUT_PATH && request.httpMethod in {Get, Post, Put, Delete}
  {
    ConfiguredChainOutcome(jwt, request, session, now);
  }

  /** Reaching a handler implies the gate authenticated the request with the token's
      subject, credentials null and no authorities. */
  lemma HandlerOnlyWithPrincipal(jwt: JwtService, request: Request, session: Option<Authentication>, now: Instant)
    requires Serve(SecurityFilterChain(), jwt, request, session, now).Handled?
    ensures !LogoutMatches(false, request)
    ensures Decide(jwt, request.authorization, now).Authenticate?
    ensures Serve(SecurityFilterChain(), jwt, request, session, now).authentication ==
      Some(Authentication(Decide(jwt, request.authorization, now).principal, None, []))
  {
    ConfiguredChainOutcome(jwt, request, session, now);
  }

  /** Stateless: what a session might hold has no effect; only the request's own
      header decides, and its route and method only in that the logout route is answered
      first. No other route is exempt from the rule. */
  lemma OutcomeIndependentOfSessionAndRoute(jwt: JwtService, request1: Request, request2: Request,
                                            session1: Option<Authentication>, session2: Option<Authentication>, now: Instant)
    requires request1.authorization == request2.authorization
    requires LogoutMatches(false, request1) == LogoutMatches(false, request2)
    ensures Serve(SecurityFilterChain(), jwt, request1, session1, now) == Serve(SecurityFilterChain(), jwt, request2, session2, now)
  {
    ConfiguredChainOutcome(jwt, request1, session1, now);
    ConfiguredChainOutcome(jwt, request2, session2, now);
  }

  /** A request without a usable bearer header is refused before any handler runs,
      unless it is the logout request, which is redirected. */
  lemma MissingBearerDenied(jwt: JwtService, request: Request, session: Option<Authentication>, now: Instant)
    requires request.authorization.None? || !StartsWith(request.authorization.value, BEARER_PREFIX)
    ensures Serve(SecurityFilterChain(), jwt, request, session, now) ==
      if LogoutMatches(false, request) then LoggedOut else AccessDenied
  {
    ConfiguredChainOutcome(jwt, request, session, now);
  }

  /** The order matters: were the authorization check placed ahead of the gate, a
      request with a valid token would be refused. */
  lemma GateAfterAuthorizationWouldDeny(jwt: JwtService, request: Request, now: Instant)
    requires Decide(jwt, request.authorization, now).Authenticate?
    ensures Serve(SecurityFilterChain().(stages := [AuthorizationCheck, JwtGate]), jwt, request, None, now) == AccessDenied
  {
  }

  /** The design choice is visible: with a session-keeping policy, an authentication from
      an earlier request would let a header-less request through. */
  lemma SessionPolicyWouldCarryAuthentication(jwt: JwtService, request: Request, earlier: Authentication, now: Instant)
    requires request.authorization.None?
    ensures Serve(SecurityFilterChain().(sessionPolicy := IfRequired), jwt, request, Some(earlier), now) ==
      if LogoutMatches(false, request) then LoggedOut else Handled(Some(earlier))
  {
    var http := SecurityFilterChain().(sessionPolicy := IfRequired);
    var gated: seq<Stage> := [JwtGate, UsernamePasswordAuthentication, AuthorizationCheck];
    var rest: seq<Stage> := [UsernamePasswordAuthentication, AuthorizationCheck];
    var last: seq<Stage> := [AuthorizationCheck];
    assert http.stages[1..] == gated && gated[1..] == rest && rest[1..] == last && last[1..] == [];
    if !LogoutMatches(false, request) {
      assert Decide(jwt, request.authorization, now) == PassThrough;
      assert Serve(http, jwt, request, Some(earlier), now) == RunStages(gated, http, jwt, request, Some(earlier), now);
      assert RunStages(gated, http, jwt, request, Some(earlier), now) == RunStages(rest, http, jwt, request, Some(earlier), now);
      assert RunStages(last, http, jwt, request, Some(earlier), now) == RunStages([], http, jwt, request, Some(earlier), now);
    }
  }

  /** End to end: a token the service issued, sent as `Bearer <token>` before it expires,
      reaches the handler as its user on every route but logout. */
  lemma IssuedTokenReachesHandler(jwt: JwtService, user: UserDetails, issuedAt: Instant,
                                  httpMethod: HttpMethod, path: string,
                                  session: Option<Authentication>, now: Instant)
    requires Sound(jwt.codec)
    requires jwt.GenerateToken(user, issuedAt).Ok?
    requires issuedAt + jwt.jwtExpiration <= LONG_MAX
    requires now < issuedAt + jwt.jwtExpiration
    ensures var request := Request(httpMethod, path, Some(BEARER_PREFIX + jwt.GenerateToken(user, issuedAt).value));
      Serve(SecurityFilterChain(), jwt, request, session, now) ==
        if LogoutMatches(false, request) then LoggedOut
        else Handled(Some(Authentication(Some(user.username), None, [])))
  {
    var request := Request(httpMethod, path, Some(BEARER_PREFIX + jwt.GenerateToken(user, issuedAt).value));
    IssuedTokenAuthenticates(jwt, user, issuedAt, now);
    ConfiguredChainOutcome(jwt, request, session, now);
  }
}
