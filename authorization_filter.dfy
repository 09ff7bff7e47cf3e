/**
 * JwtAuthorizationFilter: the gate every request passes before business logic runs.
 *
 * `Decide` is the specification: what happens to one request, given the store and
 * the JWT provider. `Apply` says what that outcome does to the exchange.
 * `JwtAuthorizationFilter.DoFilterInternal` follows the source step by step and is
 * proved to realise `Apply(old state, Decide(...))`.
 */
module AuthorizationFilter {
  import opened Wrappers
  import opened ResponseCodes
  import opened ResponseUtils
  import opened Exceptions
  import opened UserRepository
  import opened Collaborators
  import opened Http

  /** Routes exempt from the gate, each with its methods. */
  const WhiteList: map<string, seq<string>> := map[
    "/" := ["GET"],
    "/error" := ["GET"],
    "/users/signup" := ["GET", "POST"],
    "/users/login" := ["GET", "POST"],
    "/users/kakao/authorize" := ["GET"],
    "/users/kakao/callback" := ["GET"]]

  /** The same table spelled out as the eight (uri, method) pairs it admits. */
  const WhiteListedPairs: set<(string, string)> := {
    ("/", "GET"), ("/error", "GET"),
    ("/users/signup", "GET"), ("/users/signup", "POST"),
    ("/users/login", "GET"), ("/users/login", "POST"),
    ("/users/kakao/authorize", "GET"), ("/users/kakao/callback", "GET")}

  /** isWhiteListed: exact lookup of the uri, then membership of the method. */
  function IsWhiteListed(uri: string, httpMethod: string): (b: bool)
    ensures b <==> (uri, httpMethod) in WhiteListedPairs
  {
    httpMethod in (if uri in WhiteList then WhiteList[uri] else [])
  }

  /** The lookup is exact: no other method, no trailing slash. */
  lemma WhiteListExamples()
    ensures IsWhiteListed("/", "GET") && !IsWhiteListed("/", "POST")
    ensures IsWhiteListed("/users/login", "GET") && IsWhiteListed("/users/login", "POST")
    ensures !IsWhiteListed("/users/login", "DELETE") && !IsWhiteListed("/users/login/", "POST")
    ensures !IsWhiteListed("/boards/1", "GET")
  {
  }

  /** What one pass through the gate amounts to. */
  datatype GateOutcome =
    | Forwarded(auth: Option<string>)         // downstream invoked once; auth set when Some
    | Renewed(subject: string, token: string) // new access token header, auth set, downstream NOT invoked
    | Rejected(code: ResponseCode)            // error envelope written by setErrorResponse
    | Escaped(failure: Failure)               // exception thrown out of doFilterInternal

  /** The exception `doFilterInternal` throws for an outcome, if any. */
  function Thrown(o: GateOutcome): (r: Option<Failure>)
    ensures r.Some? <==> o.Escaped?
  {
    if o.Escaped? then Some(o.failure) else None
  }

  /** The conditions under which an expired access token is recovered. */
  predicate Recovers(refresh: Option<string>, t: UserTable, jwt: JwtProvider)
    requires TableValid(t)
  {
    && HasText(refresh)
    && jwt.validateToken(refresh.value)
    && jwt.claims(refresh.value).Valid?
    && FindByUsername(t, jwt.claims(refresh.value).subject).Ok?
    && FindByUsername(t, jwt.claims(refresh.value).subject).value.refreshToken == Some(refresh.value)
  }

  /**
   * The conditions under which an unexpired access token is honoured: its subject
   * is stored, has a session (a non-null refresh token), and the token validates.
   */
  predicate AccessAccepted(req: Request, t: UserTable, jwt: JwtProvider)
    requires TableValid(t)
  {
    && !IsWhiteListed(req.uri, req.httpMethod)
    && HasText(req.accessToken)
    && jwt.claims(req.accessToken.value).Valid?
    && FindByUsername(t, jwt.claims(req.accessToken.value).subject).Ok?
    && FindByUsername(t, jwt.claims(req.accessToken.value).subject).value.refreshToken.Some?
    && jwt.validateToken(req.accessToken.value)
  }

  /** handleExpiredAccessToken: renew from the refresh token or throw. */
  function ExpiredOutcome(refresh: Option<string>, t: UserTable, jwt: JwtProvider): (r: GateOutcome)
    requires TableValid(t)
    ensures r.Renewed? || r.Escaped?
    ensures r.Renewed? <==> Recovers(refresh, t, jwt)
    ensures r.Renewed? ==>
      r.subject == jwt.claims(refresh.value).subject && r.token == jwt.createAccessToken(r.subject)
    ensures !HasText(refresh) ==> r == Escaped(InvalidToken())
    ensures HasText(refresh) && !jwt.validateToken(refresh.value) ==> r == Escaped(InvalidToken())
  {
    if HasText(refresh) && jwt.validateToken(refresh.value) then
      match jwt.claims(refresh.value)
      case Valid(username) =>
        (match FindByUsername(t, username)
         case Failure(e) => Escaped(e)
         case Ok(user) =>
           if user.refreshToken == Some(refresh.value) then Renewed(username, jwt.createAccessToken(username))
           else Escaped(InvalidToken()))
      case Expired => Escaped(Jwt(ExpiredJwt))
      case Malformed => Escaped(Jwt(MalformedJwt))
    else
      Escaped(InvalidToken())
  }

  /** doFilterInternal, as a decision. */
  function Decide(req: Request, t: UserTable, jwt: JwtProvider): (r: GateOutcome)
    requires TableValid(t)
    ensures IsWhiteListed(req.uri, req.httpMethod) ==> r == Forwarded(None)
    ensures !IsWhiteListed(req.uri, req.httpMethod) && !HasText(req.accessToken) ==>
      r == Rejected(INVALID_TOKENS)
    ensures r.Rejected? ==> r.code == INVALID_TOKENS
    ensures !IsWhiteListed(req.uri, req.httpMethod) && r.Forwarded? ==> r.auth.Some?
    ensures r.Forwarded? && r.auth.Some? <==> AccessAccepted(req, t, jwt)
    ensures AccessAccepted(req, t, jwt) ==> r == Forwarded(Some(jwt.claims(req.accessToken.value).subject))
    ensures r.Renewed? <==>
      && !IsWhiteListed(req.uri, req.httpMethod)
      && HasText(req.accessToken)
      && jwt.claims(req.accessToken.value).Expired?
      && Recovers(req.refreshToken, t, jwt)
  {
    if IsWhiteListed(req.uri, req.httpMethod) then Forwarded(None)
    else if !HasText(req.accessToken) then Rejected(INVALID_TOKENS)
    else
      var accessToken := req.accessToken.value;
      match jwt.claims(accessToken)
      case Expired => ExpiredOutcome(req.refreshToken, t, jwt)
      case Malformed => Escaped(InvalidToken())
      case Valid(username) =>
        match FindByUsername(t, username)
        case Failure(e) => Escaped(e)
        case Ok(user) =>
          if user.refreshToken.None? then Rejected(INVALID_TOKENS)
          else if jwt.validateToken(accessToken) then Forwarded(Some(username))
          else Rejected(INVALID_TOKENS)
  }

  /** What an outcome does to the exchange. */
  function Apply(s: ExchangeState, o: GateOutcome): (s': ExchangeState)
    ensures s'.downstreamInvoked == s.downstreamInvoked + (if o.Forwarded? then 1 else 0)
    ensures o.Escaped? ==> s' == s
    ensures s'.authUser == (if Authenticates(o).Some? then Authenticates(o) else s.authUser)
  {
    match o
    case Forwarded(auth) =>
      s.(downstreamInvoked := s.downstreamInvoked + 1, authUser := if auth.Some? then auth else s.authUser)
    case Renewed(subject, token) =>
      s.(headers := s.headers + [(AUTHORIZATION_HEADER, token)], authUser := Some(subject))
    case Rejected(code) =>
      s.(status := Error(code).status, body := Some(Error(code).body))
    case Escaped(_) => s
  }

  /** The identity an outcome puts into the security context, if any. */
  function Authenticates(o: GateOutcome): (r: Option<string>)
    ensures r.Some? <==> (o.Forwarded? && o.auth.Some?) || o.Renewed?
  {
    match o
    case Forwarded(auth) => auth
    case Renewed(subject, _) => Some(subject)
    case _ => None
  }

  /** A whitelisted request runs downstream once and reads no token, sets no identity, writes nothing. */
  lemma WhiteListedRequestPasses(req: Request, t: UserTable, jwt: JwtProvider, s: ExchangeState)
    requires TableValid(t) && IsWhiteListed(req.uri, req.httpMethod)
    ensures Apply(s, Decide(req, t, jwt)) == s.(downstreamInvoked := s.downstreamInvoked + 1)
  {
  }

  /** A missing or blank access token gets the INVALID_TOKENS envelope (401) and no downstream. */
  lemma MissingTokenRejected(req: Request, t: UserTable, jwt: JwtProvider, s: ExchangeState)
    requires TableValid(t) && !IsWhiteListed(req.uri, req.httpMethod) && !HasText(req.accessToken)
    ensures var s' := Apply(s, Decide(req, t, jwt));
      && s'.status == UNAUTHORIZED && s'.body == Some(Error(INVALID_TOKENS).body)
      && s'.downstreamInvoked == s.downstreamInvoked && s'.authUser == s.authUser
  {
  }

  /** An unexpired token whose user has no session is rejected with INVALID_TOKENS. */
  lemma NoSessionRejected(req: Request, t: UserTable, jwt: JwtProvider, s: ExchangeState)
    requires TableValid(t) && !IsWhiteListed(req.uri, req.httpMethod) && HasText(req.accessToken)
    requires jwt.claims(req.accessToken.value).Valid?
    requires FindByUsername(t, jwt.claims(req.accessToken.value).subject).Ok?
    requires FindByUsername(t, jwt.claims(req.accessToken.value).subject).value.refreshToken.None?
    ensures Decide(req, t, jwt) == Rejected(INVALID_TOKENS)
    ensures var s' := Apply(s, Decide(req, t, jwt));
      s'.status == UNAUTHORIZED && s'.downstreamInvoked == s.downstreamInvoked && s'.authUser == s.authUser
  {
  }

  /**
   * With a session present, an unexpired token is honoured exactly when it
   * validates: then the subject is authenticated and downstream runs once;
   * otherwise the INVALID_TOKENS envelope is written.
   */
  lemma UnexpiredTokenWithSession(req: Request, t: UserTable, jwt: JwtProvider, s: ExchangeState)
    requires TableValid(t) && !IsWhiteListed(req.uri, req.httpMethod) && HasText(req.accessToken)
    requires jwt.claims(req.accessToken.value).Valid?
    requires FindByUsername(t, jwt.claims(req.accessToken.value).subject).Ok?
    requires FindByUsername(t, jwt.claims(req.accessToken.value).subject).value.refreshToken.Some?
    ensures var s' := Apply(s, Decide(req, t, jwt));
      if jwt.validateToken(req.accessToken.value) then
        s' == s.(downstreamInvoked := s.downstreamInvoked + 1,
                 authUser := Some(jwt.claims(req.accessToken.value).subject))
      else
        s' == s.(status := UNAUTHORIZED, body := Some(Error(INVALID_TOKENS).body))
  {
  }

  /** Once the access token is expired, downstream never runs, whatever the refresh token. */
  lemma ExpiredNeverInvokesDownstream(req: Request, t: UserTable, jwt: JwtProvider, s: ExchangeState)
    requires TableValid(t) && !IsWhiteListed(req.uri, req.httpMethod) && HasText(req.accessToken)
    requires jwt.claims(req.accessToken.value).Expired?
    ensures Apply(s, Decide(req, t, jwt)).downstreamInvoked == s.downstreamInvoked
    ensures Decide(req, t, jwt).Renewed? || Decide(req, t, jwt).Escaped?
  {
  }

  /**
   * A renewal: the refresh token string-equals the one stored for its own subject;
   * exactly one header, the new access token for that subject, is added; and that
   * subject is authenticated.
   */
  lemma RenewalEffect(req: Request, t: UserTable, jwt: JwtProvider, s: ExchangeState)
    requires TableValid(t) && Decide(req, t, jwt).Renewed?
    ensures req.refreshToken.Some? && jwt.claims(req.refreshToken.value).Valid?
    ensures var subject := jwt.claims(req.refreshToken.value).subject;
      && FindByUsername(t, subject).Ok?
      && FindByUsername(t, subject).value.refreshToken == req.refreshToken
      && Apply(s, Decide(req, t, jwt)) ==
           s.(headers := s.headers + [(AUTHORIZATION_HEADER, jwt.createAccessToken(subject))],
              authUser := Some(subject))
  {
  }

  /**
   * Failures that leave the filter as exceptions rather than as an envelope: a
   * malformed access token, an unknown subject (a UserException, which no clause
   * catches), and a failed recovery. A recovery that fails because the refresh token
   * is missing, does not validate, or is not the one stored for its subject throws
   * InvalidTokenException; an unknown subject throws UserNotFoundException.
   */
  lemma EscapingFailures(req: Request, t: UserTable, jwt: JwtProvider)
    requires TableValid(t) && !IsWhiteListed(req.uri, req.httpMethod) && HasText(req.accessToken)
    ensures jwt.claims(req.accessToken.value).Malformed? ==> Decide(req, t, jwt) == Escaped(InvalidToken())
    ensures jwt.claims(req.accessToken.value).Valid? &&
            FindByUsername(t, jwt.claims(req.accessToken.value).subject).Failure? ==>
              Decide(req, t, jwt) == Escaped(UserNotFound()) && !UserNotFound().UserAuthentication?
    ensures jwt.claims(req.accessToken.value).Expired? && !Recovers(req.refreshToken, t, jwt) ==>
              Decide(req, t, jwt).Escaped?
    ensures jwt.claims(req.accessToken.value).Expired? &&
            (!HasText(req.refreshToken) || !jwt.validateToken(req.refreshToken.value)) ==>
              Decide(req, t, jwt) == Escaped(InvalidToken())
    ensures jwt.claims(req.accessToken.value).Expired? && HasText(req.refreshToken) &&
            jwt.validateToken(req.refreshToken.value) && jwt.claims(req.refreshToken.value).Valid? ==>
              var found := FindByUsername(t, jwt.claims(req.refreshToken.value).subject);
              (found.Failure? ==> Decide(req, t, jwt) == Escaped(UserNotFound())) &&
              (found.Ok? && found.value.refreshToken != Some(req.refreshToken.value) ==>
                 Decide(req, t, jwt) == Escaped(InvalidToken()))
  {
  }

  /** Whoever the gate authenticates is a stored user with a session. */
  lemma AuthenticatedHasSession(req: Request, t: UserTable, jwt: JwtProvider)
    requires TableValid(t) && Authenticates(Decide(req, t, jwt)).Some?
    ensures var u := Authenticates(Decide(req, t, jwt)).value;
      FindByUsername(t, u).Ok? && FindByUsername(t, u).value.refreshToken.Some?
  {
  }

  class JwtAuthorizationFilter {
    const jwtProvider: JwtProvider
    const userAdapter: UserAdapter

    constructor (jwtProvider: JwtProvider, userAdapter: UserAdapter)
      ensures this.jwtProvider == jwtProvider && this.userAdapter == userAdapter
    {
      this.jwtProvider := jwtProvider;
      this.userAdapter := userAdapter;
    }

    method DoFilterInternal(req: Request, res: Exchange) returns (thrown: Option<Failure>)
      requires userAdapter.Valid()
      modifies res
      ensures res.State() == Apply(old(res.State()), Decide(req, userAdapter.table, jwtProvider))
      ensures thrown == Thrown(Decide(req, userAdapter.table, jwtProvider))
      ensures userAdapter.table == old(userAdapter.table)
    {
      if IsWhiteListed(req.uri, req.httpMethod) {
        res.DoFilter();
        return None;
      }
      var accessToken := req.accessToken;
      if !HasText(accessToken) {
        // InvalidTokenException, caught as a UserAuthenticationException
        SetErrorResponse(res, INVALID_TOKENS);
        return None;
      }
      match jwtProvider.claims(accessToken.value)
      case Expired =>
        thrown := HandleExpiredAccessToken(req, res);
        return;
      case Malformed =>
        // JwtException, rethrown as InvalidTokenException from inside the catch block
        return Some(InvalidToken());
      case Valid(username) =>
        var found := FindByUsername(userAdapter.table, username);
        if found.Failure? {
          // UserNotFoundException is a UserException: no catch clause applies
          return Some(found.error);
        }
        if found.value.refreshToken.None? {
          SetErrorResponse(res, INVALID_TOKENS);
          return None;
        }
        if jwtProvider.validateToken(accessToken.value) {
          HandleValidAccessToken(accessToken.value, res);
        } else {
          SetErrorResponse(res, INVALID_TOKENS);
          return None;
        }
      res.DoFilter();
      thrown := None;
    }

    /** handleValidAccessToken: authenticate as the token's subject. */
    method HandleValidAccessToken(accessToken: string, res: Exchange)
      requires jwtProvider.claims(accessToken).Valid?
      modifies res
      ensures res.State() == old(res.State()).(authUser := Some(jwtProvider.claims(accessToken).subject))
    {
      var username := jwtProvider.claims(accessToken).subject;
      res.SetAuthentication(username);
    }

    /** handleExpiredAccessToken: recover with the refresh token, or throw. */
    method HandleExpiredAccessToken(req: Request, res: Exchange) returns (thrown: Option<Failure>)
      requires userAdapter.Valid()
      modifies res
      ensures res.State() == Apply(old(res.State()), ExpiredOutcome(req.refreshToken, userAdapter.table, jwtProvider))
      ensures thrown == Thrown(ExpiredOutcome(req.refreshToken, userAdapter.table, jwtProvider))
    {
      var refreshToken := req.refreshToken;
      if HasText(refreshToken) && jwtProvider.validateToken(refreshToken.value) {
        match jwtProvider.claims(refreshToken.value)
        case Expired => return Some(Jwt(ExpiredJwt));
        case Malformed => return Some(Jwt(MalformedJwt));
        case Valid(username) =>
          var found := FindByUsername(userAdapter.table, username);
          if found.Failure? {
            return Some(found.error);
          }
          if found.value.refreshToken == Some(refreshToken.value) {
            var newAccessToken := jwtProvider.createAccessToken(username);
            res.AddHeader(AUTHORIZATION_HEADER, newAccessToken);
            res.SetAuthentication(username);
            return None;
          } else {
            return Some(InvalidToken());
          }
      } else {
        return Some(InvalidToken());
      }
    }

    /** setErrorResponse: the envelope of `error(code)` and its status. */
    method SetErrorResponse(res: Exchange, code: ResponseCode)
      modifies res
      ensures res.State() == Apply(old(res.State()), Rejected(code))
    {
      var entity := Error(code);
      res.SetStatus(entity.status);
      res.WriteBody(entity.body);
    }
  }
}
