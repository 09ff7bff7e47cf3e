/**
 * JwtAuthenticationFilter: the login endpoint.
 *
 * `AttemptAuthentication` is the decision (parse body, look the user up, check the
 * password, then the status). `LoginTable` and `LoginState` specify what a login
 * does to the store and to the response; `JwtAuthenticationFilter.DoFilter` follows
 * the source and is proved to realise them.
 */
module AuthenticationFilter {
  import opened Wrappers
  import opened ResponseCodes
  import opened ResponseUtils
  import opened Exceptions
  import opened UserEntity
  import opened UserRepository
  import opened Collaborators
  import opened Http

  /** The only URL this filter processes (setFilterProcessesUrl). */
  const LOGIN_URL: string := "/users/login"

  predicate RequiresAuthentication(uri: string) {
    uri == LOGIN_URL
  }

  /** The credentials name a stored user, the password matches, and the user is NORMAL. */
  predicate Accepted(body: Option<LoginRequestDto>, t: UserTable, enc: PasswordEncoder)
    requires TableValid(t)
  {
    && body.Some?
    && FindByUsername(t, body.value.username).Ok?
    && enc.matches(body.value.password, FindByUsername(t, body.value.username).value.password)
    && FindByUsername(t, body.value.username).value.userStatus == STATUS_NORMAL
  }

  /**
   * attemptAuthentication. The authentication manager's own check is taken to
   * succeed for a NORMAL user whose password matches, which is all that remains
   * once the two checks here have passed.
   */
  function AttemptAuthentication(body: Option<LoginRequestDto>, t: UserTable, enc: PasswordEncoder)
    : (r: Result<UserRow, Failure>)
    requires TableValid(t)
    ensures r.Failure? ==> r.error.UserAuthentication?
    ensures body.None? ==> r == Failure(InvalidToken())
    ensures r.Ok? <==> Accepted(body, t, enc)
    ensures r.Ok? ==> r.value == FindByUsername(t, body.value.username).value
    ensures body.Some? && FindByUsername(t, body.value.username).Failure? ==> r == Failure(UserInfo())
    ensures body.Some? && FindByUsername(t, body.value.username).Ok? ==>
      var user := FindByUsername(t, body.value.username).value;
      && (!enc.matches(body.value.password, user.password) ==> r == Failure(UserInfo()))
      && (enc.matches(body.value.password, user.password) && user.userStatus == STATUS_DELETED ==>
            r == Failure(UserDeleted()))
  {
    match body
    case None => Failure(InvalidToken())     // IOException while reading the body
    case Some(dto) =>
      match FindByUsername(t, dto.username)
      case Failure(_) => Failure(UserInfo())
      case Ok(user) =>
        if !enc.matches(dto.password, user.password) then Failure(UserInfo())
        else if user.userStatus == STATUS_DELETED then Failure(UserDeleted())
        else Ok(user)
  }

  /** unsuccessfulAuthentication: the code written for a failure. */
  function FailureCode(failed: Failure): (code: ResponseCode)
    ensures failed.UserAuthentication? ==> code == failed.code
    ensures !failed.UserAuthentication? ==> code == INVALID_TOKENS
  {
    if failed.UserAuthentication? then failed.code else INVALID_TOKENS
  }

  /** The store after a successful login: the user's refresh token is overwritten. */
  function LoginTable(t: UserTable, user: UserRow, jwt: JwtProvider): (r: UserTable)
    requires TableValid(t)
    requires user.id in t.rows && t.rows[user.id].username == user.username
    ensures TableValid(r) && r.rows.Keys == t.rows.Keys
    ensures r.rows[user.id] == user.(refreshToken := Some(jwt.createRefreshToken(user.username)))
    ensures forall k | k in t.rows && k != user.id :: r.rows[k] == t.rows[k]
  {
    Updated(t, WithRefreshToken(user, Some(jwt.createRefreshToken(user.username))))
  }

  /** The response after a successful login: one header with the access token, and success(OK). */
  function SuccessState(s: ExchangeState, username: string, jwt: JwtProvider): (s': ExchangeState)
    ensures s'.headers == s.headers + [(AUTHORIZATION_HEADER, jwt.createAccessToken(username))]
    ensures s'.status == OK && s'.body == Some(Success(OK).body)
    ensures s'.downstreamInvoked == s.downstreamInvoked && s'.authUser == s.authUser
  {
    s.(headers := s.headers + [(AUTHORIZATION_HEADER, jwt.createAccessToken(username))],
       status := OK, body := Some(Success(OK).body))
  }

  /** The response after a failed login: the error envelope of the failure's code, with its status. */
  function FailureState(s: ExchangeState, failed: Failure): (s': ExchangeState)
    ensures s'.status == HttpStatus(FailureCode(failed))
    ensures s'.body == Some(Error(FailureCode(failed)).body)
    ensures s'.headers == s.headers && s'.downstreamInvoked == s.downstreamInvoked && s'.authUser == s.authUser
  {
    s.(status := Error(FailureCode(failed)).status, body := Some(Error(FailureCode(failed)).body))
  }

  /** The whole filter on the store. */
  function LoginTableAfter(req: Request, t: UserTable, jwt: JwtProvider, enc: PasswordEncoder): (r: UserTable)
    requires TableValid(t)
    ensures TableValid(r) && r.rows.Keys == t.rows.Keys
    ensures !RequiresAuthentication(req.uri) ==> r == t
    ensures forall k | k in t.rows :: r.rows[k] == t.rows[k].(refreshToken := r.rows[k].refreshToken)
  {
    if !RequiresAuthentication(req.uri) then t
    else
      match AttemptAuthentication(req.loginBody, t, enc)
      case Ok(user) => LoginTable(t, user, jwt)
      case Failure(_) => t
  }

  /** The whole filter on the response. */
  function LoginState(req: Request, t: UserTable, jwt: JwtProvider, enc: PasswordEncoder, s: ExchangeState)
    : (s': ExchangeState)
    requires TableValid(t)
    ensures !RequiresAuthentication(req.uri) ==> s' == s.(downstreamInvoked := s.downstreamInvoked + 1)
    ensures RequiresAuthentication(req.uri) ==> s'.downstreamInvoked == s.downstreamInvoked
  {
    if !RequiresAuthentication(req.uri) then s.(downstreamInvoked := s.downstreamInvoked + 1)
    else
      match AttemptAuthentication(req.loginBody, t, enc)
      case Ok(user) => SuccessState(s, user.username, jwt)
      case Failure(e) => FailureState(s, e)
  }

  /** An unreadable body fails with INVALID_TOKENS. */
  lemma UnreadableBodyFails(req: Request, t: UserTable, jwt: JwtProvider, enc: PasswordEncoder, s: ExchangeState)
    requires TableValid(t) && RequiresAuthentication(req.uri) && req.loginBody.None?
    ensures LoginState(req, t, jwt, enc, s) == s.(status := UNAUTHORIZED, body := Some(Error(INVALID_TOKENS).body))
    ensures LoginTableAfter(req, t, jwt, enc) == t
  {
  }

  /** An unknown username and a wrong password produce the same response. */
  lemma UnknownUserLooksLikeWrongPassword(
    t: UserTable, enc: PasswordEncoder, jwt: JwtProvider, s: ExchangeState,
    unknown: LoginRequestDto, wrong: LoginRequestDto, uri: string, m: string)
    requires TableValid(t) && RequiresAuthentication(uri)
    requires FindByUsername(t, unknown.username).Failure?
    requires FindByUsername(t, wrong.username).Ok?
    requires !enc.matches(wrong.password, FindByUsername(t, wrong.username).value.password)
    ensures
      var r1 := Request(uri, m, None, None, Some(unknown));
      var r2 := Request(uri, m, None, None, Some(wrong));
      LoginState(r1, t, jwt, enc, s) == LoginState(r2, t, jwt, enc, s)
  {
  }

  /**
   * The password is checked before the status: a deleted user with the right
   * password gets USER_DELETED, with a wrong one INVALID_USER_INFO.
   */
  lemma PasswordBeforeStatus(dto: LoginRequestDto, t: UserTable, enc: PasswordEncoder)
    requires TableValid(t) && FindByUsername(t, dto.username).Ok?
    requires FindByUsername(t, dto.username).value.userStatus == STATUS_DELETED
    ensures AttemptAuthentication(Some(dto), t, enc) ==
      if enc.matches(dto.password, FindByUsername(t, dto.username).value.password)
      then Failure(UserDeleted()) else Failure(UserInfo())
  {
  }

  /**
   * A successful login: one header carrying the new access token, status 200, the
   * envelope (200, null, null), and the user's refresh token overwritten with the
   * new refresh token, every other column and every other user unchanged.
   */
  lemma SuccessfulLogin(req: Request, t: UserTable, jwt: JwtProvider, enc: PasswordEncoder, s: ExchangeState)
    requires TableValid(t) && RequiresAuthentication(req.uri) && Accepted(req.loginBody, t, enc)
    ensures var user := FindByUsername(t, req.loginBody.value.username).value;
      var s' := LoginState(req, t, jwt, enc, s);
      var t' := LoginTableAfter(req, t, jwt, enc);
      && s'.headers == s.headers + [(AUTHORIZATION_HEADER, jwt.createAccessToken(user.username))]
      && s'.status == OK && s'.body == Some(HttpResponseDto(OK, None, None))
      && t'.rows == t.rows[user.id := user.(refreshToken := Some(jwt.createRefreshToken(user.username)))]
  {
  }

  /** A failed login leaves the store alone and its status is the code's, not the 401 set first. */
  lemma FailedLogin(req: Request, t: UserTable, jwt: JwtProvider, enc: PasswordEncoder, s: ExchangeState)
    requires TableValid(t) && RequiresAuthentication(req.uri) && !Accepted(req.loginBody, t, enc)
    ensures var code := AttemptAuthentication(req.loginBody, t, enc).error.code;
      && code in {INVALID_TOKENS, INVALID_USER_INFO, USER_DELETED}
      && LoginState(req, t, jwt, enc, s) == s.(status := HttpStatus(code), body := Some(Error(code).body))
      && LoginTableAfter(req, t, jwt, enc) == t
  {
  }

  /** Last write wins: after a second login the store holds the second refresh token. */
  lemma LastLoginWins(t: UserTable, user: UserRow, jwt1: JwtProvider, jwt2: JwtProvider)
    requires TableValid(t) && user.id in t.rows && t.rows[user.id] == user
    ensures var t1 := LoginTable(t, user, jwt1);
      var t2 := LoginTable(t1, t1.rows[user.id], jwt2);
      t2.rows[user.id].refreshToken == Some(jwt2.createRefreshToken(user.username))
  {
  }

  class JwtAuthenticationFilter {
    const jwtProvider: JwtProvider
    const userAdapter: UserAdapter
    const passwordEncoder: PasswordEncoder

    constructor (jwtProvider: JwtProvider, userAdapter: UserAdapter, passwordEncoder: PasswordEncoder)
      ensures this.jwtProvider == jwtProvider && this.userAdapter == userAdapter
      ensures this.passwordEncoder == passwordEncoder
    {
      this.jwtProvider := jwtProvider;
      this.userAdapter := userAdapter;
      this.passwordEncoder := passwordEncoder;
    }

    /**
     * The processing filter's template: requests to other URLs go down the chain;
     * a login attempt ends in successfulAuthentication or unsuccessfulAuthentication.
     */
    method DoFilter(req: Request, res: Exchange)
      requires userAdapter.Valid()
      modifies res, userAdapter
      ensures userAdapter.Valid()
      ensures userAdapter.table == LoginTableAfter(req, old(userAdapter.table), jwtProvider, passwordEncoder)
      ensures res.State() == LoginState(req, old(userAdapter.table), jwtProvider, passwordEncoder, old(res.State()))
    {
      if !RequiresAuthentication(req.uri) {
        res.DoFilter();
        return;
      }
      var attempt := AttemptAuthentication(req.loginBody, userAdapter.table, passwordEncoder);
      if attempt.Ok? {
        // the principal the authentication manager returns, loaded from the store
        var user := new User.Load(attempt.value);
        SuccessfulAuthentication(res, user);
      } else {
        UnsuccessfulAuthentication(res, attempt.error);
      }
    }

    /** successfulAuthentication: mint both tokens, send the access token, keep the refresh token. */
    method SuccessfulAuthentication(res: Exchange, user: User)
      requires userAdapter.Valid() && user.id.Some? && Persisted(userAdapter.table, user)
      modifies res, userAdapter, user
      ensures userAdapter.Valid()
      ensures userAdapter.table == LoginTable(old(userAdapter.table), old(user.Row()), jwtProvider)
      ensures user.refreshToken == Some(jwtProvider.createRefreshToken(user.username))
      ensures user.id == old(user.id) && user.Row() == old(user.Row()).(refreshToken := user.refreshToken)
      ensures res.State() == SuccessState(old(res.State()), user.username, jwtProvider)
    {
      var username := user.username;
      var accessToken := jwtProvider.createAccessToken(username);
      var refreshToken := jwtProvider.createRefreshToken(username);
      res.AddHeader(AUTHORIZATION_HEADER, accessToken);
      user.refreshToken := Some(refreshToken);
      var thrown := userAdapter.Save(user);
      res.SetStatus(OK);
      WriteResponseBody(res, Success(OK));
    }

    /** unsuccessfulAuthentication: 401 first, then the envelope of the failure's code. */
    method UnsuccessfulAuthentication(res: Exchange, failed: Failure)
      modifies res
      ensures res.State() == FailureState(old(res.State()), failed)
    {
      res.SetStatus(UNAUTHORIZED);
      WriteErrorResponse(res, FailureCode(failed));
    }

    /** writeResponseBody: the entity's status replaces whatever was set before. */
    method WriteResponseBody(res: Exchange, entity: ResponseEntity<()>)
      modifies res
      ensures res.State() == old(res.State()).(status := entity.status, body := Some(entity.body))
    {
      res.SetStatus(entity.status);
      res.WriteBody(entity.body);
    }

    method WriteErrorResponse(res: Exchange, code: ResponseCode)
      modifies res
      ensures res.State() == old(res.State()).(status := HttpStatus(code), body := Some(Error(code).body))
    {
      WriteResponseBody(res, Error(code));
    }
  }
}
