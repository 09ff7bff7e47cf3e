/**
 * Properties that span the login filter, the gate and the user service: what a
 * withdrawal does to later logins and requests, and the session invariant that
 * every sequence of signups, logins and withdrawals keeps.
 */
module Lifecycle {
  import opened Wrappers
  import opened ResponseCodes
  import opened Exceptions
  import opened UserEntity
  import opened UserRepository
  import opened Collaborators
  import opened Http
  import opened AuthorizationFilter
  import opened AuthenticationFilter
  import opened UserServices

  /** A deleted user never holds a session. */
  ghost predicate SessionInvariant(t: UserTable) {
    && TableValid(t)
    && forall k | k in t.rows && t.rows[k].userStatus == STATUS_DELETED :: t.rows[k].refreshToken.None?
  }

  /** The store after deleteUser saved a principal loaded from row `principal.id`. */
  function WithdrawTable(t: UserTable, principal: UserRow): (r: UserTable)
    requires TableValid(t) && principal.id in t.rows && t.rows[principal.id].username == principal.username
    ensures TableValid(r) && principal.id in r.rows && r.rows[principal.id] == Withdrawn(principal)
  {
    Updated(t, Withdrawn(principal))
  }

  /** After an update the username lookup returns the updated row. */
  lemma FindAfterUpdate(t: UserTable, row: UserRow)
    requires TableValid(t) && row.id in t.rows && t.rows[row.id].username == row.username
    ensures FindByUsername(Updated(t, row), row.username) == Ok(row)
  {
    var t' := Updated(t, row);
    var r := FindByUsername(t', row.username);
    assert r.Ok? by {
      assert row.id in t'.rows && t'.rows[row.id].username == row.username;
    }
    ValidHasUniqueUsernames(t');
  }

  /** After withdrawal, login for that username fails: USER_DELETED or INVALID_USER_INFO. */
  lemma NoLoginAfterWithdraw(t: UserTable, principal: UserRow, dto: LoginRequestDto, enc: PasswordEncoder)
    requires TableValid(t) && principal.id in t.rows && t.rows[principal.id].username == principal.username
    requires dto.username == principal.username
    ensures var r := AttemptAuthentication(Some(dto), WithdrawTable(t, principal), enc);
      r == Failure(UserDeleted()) || r == Failure(UserInfo())
  {
    FindAfterUpdate(t, Withdrawn(principal));
  }

  /** After withdrawal, the gate authenticates that username by neither branch. */
  lemma NoGateAfterWithdraw(t: UserTable, principal: UserRow, req: Request, jwt: JwtProvider)
    requires TableValid(t) && principal.id in t.rows && t.rows[principal.id].username == principal.username
    ensures Authenticates(Decide(req, WithdrawTable(t, principal), jwt)) != Some(principal.username)
  {
    var t' := WithdrawTable(t, principal);
    FindAfterUpdate(t, Withdrawn(principal));
    if Authenticates(Decide(req, t', jwt)) == Some(principal.username) {
      AuthenticatedHasSession(req, t', jwt);
    }
  }

  /**
   * Once withdrawal has cleared the session, an unexpired access token for the
   * withdrawn user is rejected with INVALID_TOKENS. (While the session exists the
   * same token is honoured; see `AuthorizationFilter.UnexpiredTokenWithSession`.)
   */
  lemma ClearedSessionRejectsAccessToken(t: UserTable, principal: UserRow, req: Request, jwt: JwtProvider)
    requires TableValid(t) && principal.id in t.rows && t.rows[principal.id].username == principal.username
    requires !IsWhiteListed(req.uri, req.httpMethod) && HasText(req.accessToken)
    requires jwt.claims(req.accessToken.value) == Valid(principal.username)
    ensures Decide(req, WithdrawTable(t, principal), jwt) == Rejected(INVALID_TOKENS)
  {
    FindAfterUpdate(t, Withdrawn(principal));
  }

  /**
   * A login overwrites the stored refresh token, so a refresh token issued before
   * it (any other string) no longer recovers an expired access token.
   */
  lemma LoginRevokesEarlierRefreshToken(t: UserTable, user: UserRow, jwt: JwtProvider, refresh: string, gateJwt: JwtProvider)
    requires TableValid(t) && user.id in t.rows && t.rows[user.id] == user
    requires gateJwt.claims(refresh) == Valid(user.username)
    requires refresh != jwt.createRefreshToken(user.username)
    ensures !Recovers(Some(refresh), LoginTable(t, user, jwt), gateJwt)
  {
    FindAfterUpdate(t, WithRefreshToken(user, Some(jwt.createRefreshToken(user.username))));
  }

  /** The operations that can change the store. */
  datatype Operation =
    | SignupOp(dto: SignupRequestDto, enc: PasswordEncoder)
    | LoginOp(req: Request, jwt: JwtProvider, enc: PasswordEncoder)
    | WithdrawOp(principal: UserRow)

  /** One operation; one that would fail leaves the store as it was. */
  function Step(t: UserTable, op: Operation): (r: UserTable)
    requires TableValid(t)
    ensures TableValid(r)
  {
    match op
    case SignupOp(dto, enc) =>
      var s := SignupTable(t, dto, enc);
      if s.Ok? then s.value else t
    case LoginOp(req, jwt, enc) => LoginTableAfter(req, t, jwt, enc)
    case WithdrawOp(principal) =>
      if principal.id in t.rows && t.rows[principal.id].username == principal.username
      then WithdrawTable(t, principal) else t
  }

  /** A sequence of operations, first to last. */
  function Run(t: UserTable, ops: seq<Operation>): (r: UserTable)
    requires TableValid(t)
    ensures TableValid(r)
    decreases |ops|
  {
    if ops == [] then t else Run(Step(t, ops[0]), ops[1..])
  }

  lemma StepKeepsSessionInvariant(t: UserTable, op: Operation)
    requires SessionInvariant(t)
    ensures SessionInvariant(Step(t, op))
  {
    match op
    case SignupOp(dto, enc) =>
    case LoginOp(req, jwt, enc) =>
      if RequiresAuthentication(req.uri) && AttemptAuthentication(req.loginBody, t, enc).Ok? {
        var user := AttemptAuthentication(req.loginBody, t, enc).value;
        assert user.userStatus == STATUS_NORMAL;
      }
    case WithdrawOp(principal) =>
  }

  lemma {:induction false} RunKeepsSessionInvariant(t: UserTable, ops: seq<Operation>)
    requires SessionInvariant(t)
    ensures SessionInvariant(Run(t, ops))
    decreases |ops|
  {
    if ops != [] {
      StepKeepsSessionInvariant(t, ops[0]);
      RunKeepsSessionInvariant(Step(t, ops[0]), ops[1..]);
    }
  }

  /** Every store reachable from the empty one keeps the session invariant. */
  lemma ReachableStoresKeepSessionInvariant(ops: seq<Operation>)
    ensures SessionInvariant(Run(EmptyTable(), ops))
  {
    RunKeepsSessionInvariant(EmptyTable(), ops);
  }

  /**
   * Under the session invariant a DELETED user can neither log in nor pass the gate:
   * the gate never puts that name into an exchange's security context.
   */
  lemma DeletedUserLockedOut(
    t: UserTable, name: string, req: Request, jwt: JwtProvider, dto: LoginRequestDto, enc: PasswordEncoder,
    s: ExchangeState)
    requires SessionInvariant(t)
    requires FindByUsername(t, name).Ok? && FindByUsername(t, name).value.userStatus == STATUS_DELETED
    requires dto.username == name
    ensures Authenticates(Decide(req, t, jwt)) != Some(name)
    ensures s.authUser != Some(name) ==> Apply(s, Decide(req, t, jwt)).authUser != Some(name)
    ensures !AttemptAuthentication(Some(dto), t, enc).Ok?
  {
    if Authenticates(Decide(req, t, jwt)) == Some(name) {
      AuthenticatedHasSession(req, t, jwt);
    }
  }

  /**
   * In every store reachable from the empty one, a DELETED user can neither log in
   * nor be authenticated by the gate, whatever tokens a request presents.
   */
  lemma DeletedUserNeverAuthenticates(
    ops: seq<Operation>, t: UserTable, name: string, req: Request, jwt: JwtProvider, dto: LoginRequestDto,
    enc: PasswordEncoder, s: ExchangeState)
    requires t == Run(EmptyTable(), ops)
    requires FindByUsername(t, name).Ok? && FindByUsername(t, name).value.userStatus == STATUS_DELETED
    requires dto.username == name
    ensures Authenticates(Decide(req, t, jwt)) != Some(name)
    ensures s.authUser != Some(name) ==> Apply(s, Decide(req, t, jwt)).authUser != Some(name)
    ensures !AttemptAuthentication(Some(dto), t, enc).Ok?
  {
    ReachableStoresKeepSessionInvariant(ops);
    DeletedUserLockedOut(t, name, req, jwt, dto, enc, s);
  }
}
