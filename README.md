# spring-trello authentication core, in Dafny

This project models the authentication and authorization front door of the
spring-trello API:

- **Request gate.** `JwtAuthorizationFilter` runs on every request. A request whose
  (uri, method) pair is whitelisted passes through. Otherwise the filter reads the
  access token and does one of four things: it authenticates the token's subject, it
  renews an expired access token from a refresh token, it writes an error envelope,
  or it lets an exception escape.
- **Login.** `JwtAuthenticationFilter` checks a username and password. On success it
  mints an access token and a refresh token, sends only the access token in the
  `AUTHORIZATION_HEADER` header, and stores the refresh token on the user.
- **User lifecycle.** `UserService` handles signup, profile lookup and withdrawal.
  It works over the `UserAdapter` store and the `User` entity.
- **Response envelope.** `ResponseUtils` builds the envelope and `ResponseCodeEnum`
  is the code table.

Only the core's decision logic is modelled. Everything it calls is abstract:

- The JWT provider is a value holding total functions: claims parsing, a separate
  validity check, and minting of access and refresh tokens.
- The password encoder is a value holding `encode` and `matches`.
- Spring's `StringUtils.hasText` is written out, using Java's definition of a
  whitespace character.

Every property is proved for every provider and every encoder.

Each core source file has its own module. The seven exception classes share `Exceptions`. `Wrappers` (the Option and Result types), `Collaborators` (the JWT provider, the password encoder and `hasText`), `Http` (the servlet request and response, the filter chain and the security context) and `Lifecycle` (properties across modules) stand for no single source file:

| module | file | form |
|---|---|---|
| `ResponseCodes` | response_codes.dfy | the code table, as functions |
| `ResponseUtils` | response_utils.dfy | the envelope factories, as functions |
| `Exceptions` | exceptions.dfy | the exception classes, folded into one `Failure` datatype |
| `UserEntity` | user.dfy | `class User`, plus `UserRow` (one stored row) |
| `UserRepository` | user_adapter.dfy | `UserTable` (id → row plus the unique username index), its lookups as functions, and `class UserAdapter`, whose `Save` is the only write |
| `UserServices` | user_service.dfy | `class UserService`, plus the signup and withdraw specifications |
| `Collaborators` | collaborators.dfy | the JWT provider oracle, the password encoder, `HasText` |
| `Http` | http.dfy | the request (a value) and `class Exchange` (the response, the filter chain, the security context) |
| `AuthorizationFilter` | authorization_filter.dfy | `Decide`/`Apply` (the specification) and `class JwtAuthorizationFilter` |
| `AuthenticationFilter` | authentication_filter.dfy | `AttemptAuthentication`, `LoginTableAfter`/`LoginState`, and `class JwtAuthenticationFilter` |
| `Lifecycle` | lifecycle.dfy | properties that span modules, and the session invariant over every sequence of operations |

The exchange and the store are mutable objects, and the imperative methods are
proved to leave exactly the state that a pure specification function gives; the
properties are proved about those functions. What each imperative method follows:

- `JwtAuthorizationFilter.DoFilterInternal`, `Signup`, `GetProfile` and `DeleteUser`
  follow the source methods statement by statement.
- `JwtAuthenticationFilter.DoFilter` has no source text of its own. It stands for the
  `doFilter` that the filter inherits from Spring's `AbstractAuthenticationProcessingFilter`:
  skip the chain unless the URL is the login URL, otherwise call `attemptAuthentication`
  and then `successfulAuthentication` or `unsuccessfulAuthentication`. The
  `getAuthenticationManager().authenticate` call at the end of `attemptAuthentication`
  is not modelled; `AttemptAuthentication` takes it to succeed.
- `UserAdapter.Save` delegates to the JPA repository in the source. Its two branches,
  update an object that has an id and insert one that does not, are the
  persist-or-merge behaviour of that repository, not code in the adapter.

The model follows the code where the code does something other than what a reader
might expect:

- The gate does not always end in an error envelope. These cases let an exception
  escape `doFilterInternal` instead:
  - a malformed access token;
  - an unknown subject (`UserNotFoundException` is not a `UserAuthenticationException`, so no catch clause applies);
  - every failed refresh-token recovery.
- After a successful refresh-token recovery, the filter returns without calling the
  rest of the chain.
- In the recovery branch, the presented refresh token is compared with the refresh
  token stored for the presented refresh token's own subject. That subject need not
  be the access token's subject.
- The gate never looks at the user's status. It keeps a deleted user out only
  because withdrawal clears the stored refresh token.
  `Lifecycle.DeletedUserNeverAuthenticates` proves that this holds in every store
  reachable by signups, logins and withdrawals.
- Login checks the password before the status.
- `UserInfoException` uses `INVALID_USER_INFO`, but `ResponseCodeEnum` does not
  declare that constant. The model adds it, and leaves its status and message as
  unspecified constants (`InvalidUserInfoStatus`, `InvalidUserInfoMessage`). So a
  failed login's status is only known when the failure is USER_DELETED or
  INVALID_TOKENS.

## Model

| member | source | states |
|---|---|---|
| `ResponseCodes.HttpStatus` | src/main/java/com/sparta/springtrello/common/ResponseCodeEnum.java:11-15 | USER_NOT_FOUND is 404, USER_ALREADY_EXISTS is 409, USER_DELETED, INVALID_TOKENS and REFRESH_TOKEN_EXPIRED are 401; every declared code is a 4xx |
| `ResponseCodes.Message` | src/main/java/com/sparta/springtrello/common/ResponseCodeEnum.java:11-15 | each declared constant has one fixed, non-empty message |
| `ResponseCodes.MessagesDistinct` | src/main/java/com/sparta/springtrello/common/ResponseCodeEnum.java:11-15 | the five declared messages are pairwise distinct |
| `ResponseCodes.UnauthorizedFamily` | src/main/java/com/sparta/springtrello/common/ResponseCodeEnum.java:13-15 | a declared code is 401 exactly when it is USER_DELETED, INVALID_TOKENS or REFRESH_TOKEN_EXPIRED |
| `ResponseUtils.Error` | src/main/java/com/sparta/springtrello/common/ResponseUtils.java:9-14 | entity status = code status = body status; body message is the code's message, data null |
| `ResponseUtils.Success` | src/main/java/com/sparta/springtrello/common/ResponseUtils.java:17-22 | entity status = body status = the given status; message and data null |
| `ResponseUtils.SuccessWith` | src/main/java/com/sparta/springtrello/common/ResponseUtils.java:25-30 | entity status = body status = the given status; message null, data the given data |
| `Exceptions.UserNotFound` | src/main/java/com/sparta/springtrello/exception/custom/user/UserNotFoundException.java:6-9 | carries USER_NOT_FOUND and is a UserException, not a UserAuthenticationException |
| `UserEntity.User.constructor` | src/main/java/com/sparta/springtrello/domain/user/entity/User.java:56-60 | sets username, password and status; id, refresh token, nickname, introduce and pictureUrl start null |
| `UserEntity.User.Load` | src/main/java/com/sparta/springtrello/domain/user/entity/User.java:13-21 | loading a stored row gives an object whose columns are that row's |
| `UserRepository.ValidHasUniqueUsernames` | src/main/java/com/sparta/springtrello/domain/user/entity/User.java:24-26 | in a consistent store no two users share a username |
| `UserRepository.FindById` | src/main/java/com/sparta/springtrello/domain/user/repository/UserAdapter.java:17-20 | returns the stored row with that id when present, otherwise UserNotFoundException |
| `UserRepository.FindByUsername` | src/main/java/com/sparta/springtrello/domain/user/repository/UserAdapter.java:22-25 | succeeds exactly when some stored row has the username, and then returns that stored row; otherwise UserNotFoundException, never null |
| `UserRepository.ExistsByUsername` | src/main/java/com/sparta/springtrello/domain/user/repository/UserAdapter.java:26-28 | true exactly when findByUsername would succeed, i.e. when some stored row has the username |
| `UserRepository.Inserted` | src/main/java/com/sparta/springtrello/domain/user/repository/UserAdapter.java:30-32 | inserting fails exactly when the username is taken; otherwise the row is added under a fresh id and the store stays consistent |
| `UserRepository.Updated` | src/main/java/com/sparta/springtrello/domain/user/repository/UserAdapter.java:30-32 | updating replaces exactly the row with the object's id, keeps the key set and every other row, and keeps the store consistent |
| `UserRepository.UserAdapter.Save` | src/main/java/com/sparta/springtrello/domain/user/repository/UserAdapter.java:30-32 | an object with an id updates its row; an object without one is inserted and given the new id, or rejected with nothing changed |
| `Collaborators.HasText` | src/main/java/com/sparta/springtrello/auth/JwtAuthorizationFilter.java:78 | text means non-null and non-empty; a string starting with a non-whitespace character has text |
| `Collaborators.BlankHasNoText` | src/main/java/com/sparta/springtrello/auth/JwtAuthorizationFilter.java:78 | null, empty and all-whitespace tokens have no text |
| `Http.Exchange.AddHeader` | src/main/java/com/sparta/springtrello/auth/JwtAuthorizationFilter.java:136 | one header is appended after the existing ones; nothing else changes |
| `Http.Exchange.SetStatus` | src/main/java/com/sparta/springtrello/auth/JwtAuthenticationFilter.java:110 | the status becomes the given one; nothing else changes |
| `Http.Exchange.WriteBody` | src/main/java/com/sparta/springtrello/auth/JwtAuthorizationFilter.java:166-167 | the response body becomes the given envelope; nothing else changes |
| `Http.Exchange.DoFilter` | src/main/java/com/sparta/springtrello/auth/JwtAuthorizationFilter.java:71 | the rest of the filter chain runs once more; nothing else changes in the exchange (downstream effects are not modelled; see Left out) |
| `Http.Exchange.SetAuthentication` | src/main/java/com/sparta/springtrello/auth/JwtAuthorizationFilter.java:147-152 | the security context authenticates the given username; nothing else changes |
| `AuthorizationFilter.IsWhiteListed` | src/main/java/com/sparta/springtrello/auth/JwtAuthorizationFilter.java:172-174 | true exactly for the eight (uri, method) pairs the whitelist map lists |
| `AuthorizationFilter.WhiteListExamples` | src/main/java/com/sparta/springtrello/auth/JwtAuthorizationFilter.java:43-50 | `/` admits only GET, `/users/login` admits GET and POST but not DELETE, `/users/login/` and `/boards/1` are not whitelisted |
| `AuthorizationFilter.ExpiredOutcome` | src/main/java/com/sparta/springtrello/auth/JwtAuthorizationFilter.java:125-144 | recovery renews exactly when the refresh header has text, validates, and string-equals the token stored for its own subject; the new token is minted for that subject; every other case throws, and a missing or non-validating refresh token throws InvalidTokenException |
| `AuthorizationFilter.Decide` | src/main/java/com/sparta/springtrello/auth/JwtAuthorizationFilter.java:61-112 | whitelisted → forwarded unauthenticated; no text → INVALID_TOKENS; an unexpired token is forwarded as its subject exactly when the subject is stored with a non-null refresh token and the token validates; renewal exactly on an expired token that recovers; a non-whitelisted request goes downstream only when authenticated; every envelope is INVALID_TOKENS |
| `AuthorizationFilter.Apply` | src/main/java/com/sparta/springtrello/auth/JwtAuthorizationFilter.java:69-111 | downstream runs once more exactly for a forwarded request; the security context afterwards holds exactly the identity `Authenticates` names, or what it held before when none; an escaping exception leaves the exchange as it was |
| `AuthorizationFilter.Authenticates` | src/main/java/com/sparta/springtrello/auth/JwtAuthorizationFilter.java:147-152 | an identity is set exactly by an authenticated forward or a renewal |
| `AuthorizationFilter.WhiteListedRequestPasses` | src/main/java/com/sparta/springtrello/auth/JwtAuthorizationFilter.java:69-73 | a whitelisted request invokes downstream once and changes nothing else: no token read, no identity, no envelope |
| `AuthorizationFilter.MissingTokenRejected` | src/main/java/com/sparta/springtrello/auth/JwtAuthorizationFilter.java:78-109 | a missing or blank access token writes the INVALID_TOKENS envelope with status 401 and does not invoke downstream |
| `AuthorizationFilter.NoSessionRejected` | src/main/java/com/sparta/springtrello/auth/JwtAuthorizationFilter.java:87-90 | an unexpired token whose user's stored refresh token is null is rejected with INVALID_TOKENS (401), no downstream, no identity |
| `AuthorizationFilter.UnexpiredTokenWithSession` | src/main/java/com/sparta/springtrello/auth/JwtAuthorizationFilter.java:92-98 | with a stored session, a validating token authenticates its subject and invokes downstream once; a failing one writes the INVALID_TOKENS envelope |
| `AuthorizationFilter.ExpiredNeverInvokesDownstream` | src/main/java/com/sparta/springtrello/auth/JwtAuthorizationFilter.java:99-103 | on an expired access token downstream is never invoked: the outcome is a renewal or an exception |
| `AuthorizationFilter.RenewalEffect` | src/main/java/com/sparta/springtrello/auth/JwtAuthorizationFilter.java:125-137 | a renewal requires the presented refresh token to equal the stored one, adds exactly one AUTHORIZATION_HEADER header with the new access token, and authenticates the refresh token's subject |
| `AuthorizationFilter.EscapingFailures` | src/main/java/com/sparta/springtrello/auth/JwtAuthorizationFilter.java:83-110 | a malformed token throws InvalidTokenException, an unknown subject throws UserNotFoundException, a failed recovery throws: InvalidTokenException for a missing, non-validating or non-matching refresh token, and UserNotFoundException for an unknown refresh-token subject; none writes an envelope |
| `AuthorizationFilter.AuthenticatedHasSession` | src/main/java/com/sparta/springtrello/auth/JwtAuthorizationFilter.java:85-137 | whoever the gate authenticates is a stored user whose refresh token is non-null |
| `AuthorizationFilter.JwtAuthorizationFilter.constructor` | src/main/java/com/sparta/springtrello/auth/JwtAuthorizationFilter.java:52-58 | keeps the provider and the store it is given |
| `AuthorizationFilter.JwtAuthorizationFilter.DoFilterInternal` | src/main/java/com/sparta/springtrello/auth/JwtAuthorizationFilter.java:61-112 | leaves the exchange as `Apply(old, Decide(...))`, throws exactly `Decide`'s exception, and never changes the store itself (what the downstream chain does is not modelled) |
| `AuthorizationFilter.JwtAuthorizationFilter.HandleValidAccessToken` | src/main/java/com/sparta/springtrello/auth/JwtAuthorizationFilter.java:115-122 | authenticates the token's subject and changes nothing else |
| `AuthorizationFilter.JwtAuthorizationFilter.HandleExpiredAccessToken` | src/main/java/com/sparta/springtrello/auth/JwtAuthorizationFilter.java:125-144 | realises `ExpiredOutcome` on the exchange and throws its exception |
| `AuthorizationFilter.JwtAuthorizationFilter.SetErrorResponse` | src/main/java/com/sparta/springtrello/auth/JwtAuthorizationFilter.java:162-169 | sets the status and body of `error(code)` and nothing else |
| `AuthenticationFilter.AttemptAuthentication` | src/main/java/com/sparta/springtrello/auth/JwtAuthenticationFilter.java:49-81 | unreadable body → INVALID_TOKENS; unknown user or wrong password → INVALID_USER_INFO; right password but deleted → USER_DELETED; succeeds exactly for a stored NORMAL user with a matching password, returning that user; every failure is a UserAuthenticationException |
| `AuthenticationFilter.FailureCode` | src/main/java/com/sparta/springtrello/auth/JwtAuthenticationFilter.java:113-118 | a UserAuthenticationException's own code, anything else INVALID_TOKENS |
| `AuthenticationFilter.LoginTable` | src/main/java/com/sparta/springtrello/auth/JwtAuthenticationFilter.java:95-97 | the user's refresh token becomes the newly minted one; every other column and every other user unchanged |
| `AuthenticationFilter.SuccessState` | src/main/java/com/sparta/springtrello/auth/JwtAuthenticationFilter.java:89-104 | exactly one header is added, carrying the access token; status 200 and body success(OK); no downstream, no identity |
| `AuthenticationFilter.FailureState` | src/main/java/com/sparta/springtrello/auth/JwtAuthenticationFilter.java:108-135 | final status is the failure code's status, although 401 was set first; body is error(code); no header added |
| `AuthenticationFilter.LoginTableAfter` | src/main/java/com/sparta/springtrello/auth/JwtAuthenticationFilter.java:44-104 | a request to any URI other than the login URL leaves the store unchanged; otherwise the store stays consistent, no user is added or removed, and no column other than a refresh token changes |
| `AuthenticationFilter.LoginState` | src/main/java/com/sparta/springtrello/auth/JwtAuthenticationFilter.java:44 | only `/users/login` is processed: any other URI just goes down the chain, and a login never invokes downstream |
| `AuthenticationFilter.UnreadableBodyFails` | src/main/java/com/sparta/springtrello/auth/JwtAuthenticationFilter.java:77-80 | an unreadable body yields the INVALID_TOKENS envelope (401) and leaves the store alone |
| `AuthenticationFilter.UnknownUserLooksLikeWrongPassword` | src/main/java/com/sparta/springtrello/auth/JwtAuthenticationFilter.java:54-63 | an unknown username and a wrong password produce identical responses |
| `AuthenticationFilter.PasswordBeforeStatus` | src/main/java/com/sparta/springtrello/auth/JwtAuthenticationFilter.java:61-68 | a deleted user with the right password gets USER_DELETED, with a wrong password INVALID_USER_INFO |
| `AuthenticationFilter.SuccessfulLogin` | src/main/java/com/sparta/springtrello/auth/JwtAuthenticationFilter.java:85-104 | success adds one header (the access token), answers 200 with (OK, null, null), and overwrites only that user's refresh token |
| `AuthenticationFilter.FailedLogin` | src/main/java/com/sparta/springtrello/auth/JwtAuthenticationFilter.java:108-119 | a failed login's code is INVALID_TOKENS, INVALID_USER_INFO or USER_DELETED, its status is that code's, and the store is unchanged |
| `AuthenticationFilter.LastLoginWins` | src/main/java/com/sparta/springtrello/auth/JwtAuthenticationFilter.java:95-97 | after two logins the stored refresh token is the second one |
| `AuthenticationFilter.JwtAuthenticationFilter.constructor` | src/main/java/com/sparta/springtrello/auth/JwtAuthenticationFilter.java:39-45 | keeps the provider, the store and the encoder it is given |
| `AuthenticationFilter.JwtAuthenticationFilter.DoFilter` | src/main/java/com/sparta/springtrello/auth/JwtAuthenticationFilter.java:44-119 | leaves the store as `LoginTableAfter` and the exchange as `LoginState` specify |
| `AuthenticationFilter.JwtAuthenticationFilter.SuccessfulAuthentication` | src/main/java/com/sparta/springtrello/auth/JwtAuthenticationFilter.java:85-104 | the principal's refresh token is set to the new one and saved (`LoginTable`); its id and every other field stay unchanged; the exchange becomes `SuccessState` |
| `AuthenticationFilter.JwtAuthenticationFilter.UnsuccessfulAuthentication` | src/main/java/com/sparta/springtrello/auth/JwtAuthenticationFilter.java:108-119 | the exchange becomes `FailureState` |
| `AuthenticationFilter.JwtAuthenticationFilter.WriteResponseBody` | src/main/java/com/sparta/springtrello/auth/JwtAuthenticationFilter.java:122-129 | the entity's status replaces the current one and its body is written |
| `AuthenticationFilter.JwtAuthenticationFilter.WriteErrorResponse` | src/main/java/com/sparta/springtrello/auth/JwtAuthenticationFilter.java:132-135 | status is the code's status, body is error(code) |
| `UserServices.NewUserRow` | src/main/java/com/sparta/springtrello/domain/user/service/UserService.java:37-43 | a new user is NORMAL, stores `encode(raw)` as its password, has a null refresh token and an empty profile |
| `UserServices.SignupTable` | src/main/java/com/sparta/springtrello/domain/user/service/UserService.java:30-46 | a taken username fails with USER_ALREADY_EXISTS; a fresh one adds exactly one row (the count grows by one) under a fresh id and keeps the store consistent |
| `UserServices.Profile` | src/main/java/com/sparta/springtrello/domain/user/service/UserService.java:50-53 | found exactly when the id is stored; then exactly (nickname, introduce, pictureUrl) of that row, otherwise UserNotFoundException |
| `UserServices.Withdrawn` | src/main/java/com/sparta/springtrello/domain/user/service/UserService.java:57-60 | status DELETED, refresh token null, id, username, password and profile unchanged |
| `UserServices.WithdrawnIdempotent` | src/main/java/com/sparta/springtrello/domain/user/service/UserService.java:57-60 | withdrawing twice gives the same row as withdrawing once |
| `UserServices.UserService.constructor` | src/main/java/com/sparta/springtrello/domain/user/service/UserService.java:22-26 | keeps the store and the encoder it is given |
| `UserServices.UserService.Signup` | src/main/java/com/sparta/springtrello/domain/user/service/UserService.java:30-46 | leaves the store as `SignupTable` says and throws its exception, saving nothing on failure |
| `UserServices.UserService.GetProfile` | src/main/java/com/sparta/springtrello/domain/user/service/UserService.java:50-53 | same as `Profile`, read from the adapter, with nothing changed |
| `UserServices.UserService.DeleteUser` | src/main/java/com/sparta/springtrello/domain/user/service/UserService.java:57-61 | the entity becomes DELETED with a null refresh token, password and profile unchanged; a stored user keeps its id and its row becomes `Withdrawn` of it; an object without an id is inserted as `Withdrawn` under the next id, or rejected on a taken username with the store unchanged |
| `Lifecycle.WithdrawTable` | src/main/java/com/sparta/springtrello/domain/user/service/UserService.java:57-60 | after withdrawal the principal's row is the withdrawn row and the store stays consistent |
| `Lifecycle.FindAfterUpdate` | src/main/java/com/sparta/springtrello/domain/user/repository/UserAdapter.java:22-32 | after saving a row, findByUsername returns exactly that row |
| `Lifecycle.NoLoginAfterWithdraw` | src/main/java/com/sparta/springtrello/auth/JwtAuthenticationFilter.java:61-68 | after deleteUser, login for that username fails with USER_DELETED or INVALID_USER_INFO |
| `Lifecycle.NoGateAfterWithdraw` | src/main/java/com/sparta/springtrello/auth/JwtAuthorizationFilter.java:85-137 | after deleteUser the gate authenticates that username by neither branch, because the stored token is null |
| `Lifecycle.ClearedSessionRejectsAccessToken` | src/main/java/com/sparta/springtrello/auth/JwtAuthorizationFilter.java:87-90 | an unexpired access token for a withdrawn user is rejected with INVALID_TOKENS |
| `Lifecycle.LoginRevokesEarlierRefreshToken` | src/main/java/com/sparta/springtrello/auth/JwtAuthorizationFilter.java:133-134 | after a login, any other refresh token for that user no longer recovers an expired access token |
| `Lifecycle.Step` | src/main/java/com/sparta/springtrello/domain/user/repository/UserAdapter.java:30-32 | every signup, login or withdrawal keeps the store consistent |
| `Lifecycle.Run` | src/main/java/com/sparta/springtrello/domain/user/repository/UserAdapter.java:30-32 | every sequence of those operations keeps the store consistent |
| `Lifecycle.StepKeepsSessionInvariant` | src/main/java/com/sparta/springtrello/domain/user/service/UserService.java:58-59 | no operation leaves a DELETED user holding a refresh token |
| `Lifecycle.RunKeepsSessionInvariant` | src/main/java/com/sparta/springtrello/domain/user/service/UserService.java:58-59 | no sequence of operations leaves a DELETED user holding a refresh token |
| `Lifecycle.ReachableStoresKeepSessionInvariant` | src/main/java/com/sparta/springtrello/domain/user/service/UserService.java:58-59 | every store reachable from the empty one by signups, logins and withdrawals keeps the session invariant (a DELETED user holds no refresh token) |
| `Lifecycle.DeletedUserLockedOut` | src/main/java/com/sparta/springtrello/domain/user/service/UserService.java:58-59 | in any store that keeps the session invariant, a DELETED user can neither log in nor be authenticated by the gate, and the gate never puts that name into an exchange's security context |
| `Lifecycle.DeletedUserNeverAuthenticates` | src/main/java/com/sparta/springtrello/domain/user/service/UserService.java:58-59 | in every store reachable from the empty one, a DELETED user can neither log in nor be authenticated by the gate, and the gate never puts that name into an exchange's security context |

## Left out

- JWT creation, parsing, signing and expiry (`JwtProvider`, jjwt) are not part of this model. They are the oracle in `Collaborators.JwtProvider`. So is the extraction of the two tokens from the request headers (`getAccessTokenFromHeader`, `getRefreshTokenFromHeader`). The value of `AUTHORIZATION_HEADER` is an unspecified constant.
- `AuthorizationFilter.JwtAuthorizationFilter.HandleValidAccessToken`: the source parses the access token a second time. The oracle is deterministic, so that parse always agrees with the first. The model therefore does not capture a token that expires between the two parses.
- Password hashing (`PasswordEncoder`) is the oracle in `Collaborators.PasswordEncoder`.
- `Http.Exchange.DoFilter`: the rest of the filter chain is only counted. What the downstream handlers (the controllers) do to the response status and body, to the store and to the security context is not modelled. For example, `DELETE /users/withdraw` saves the withdrawn row and clears the security context. So the claims that `DoFilterInternal` never changes the store and that `Apply` leaves exactly the identity `Authenticates` names hold for the gate's own code, up to the point where it hands the request on. The store writes of the downstream handlers are modelled separately, as the `Lifecycle` operations (signup, login and withdrawal).
- Spring Security plumbing is not modelled:
  - `AuthenticationManager.authenticate` is taken to succeed for a NORMAL user whose password matches.
  - `UserDetailsServiceImpl.loadUserByUsername` and the authorities it grants are left out.
  - The thread-local `SecurityContextHolder` is one `authUser` field of the exchange.
  - What Spring does with an exception that escapes a filter is left out.
- Servlet and JSON I/O are left out: content types, output streams, serialisation, IOException while writing, and logging. The JSON reader is a parameter: the request carries the decoded login body, or `None` when reading it fails.
- `UserEntity.User`: the Lombok setters are direct field assignments. The `Timestamped` audit columns are left out.
- `UserRepository.UserAdapter.Save` requires an object that already has an id to match the stored row of that id and username. Objects get ids only from the store, so that always holds. The model does not capture merging a detached entity whose row is missing.
- `LoginRequestDto` fields that the JSON leaves null are left out. The model's username and password are always strings.
- `UserController` is HTTP wiring and is not part of this model.
- The exception classes are folded into `Exceptions.Failure`. `UploadException`, `InvalidCurrentPasswordException` and `SameAsOldPasswordException` are unused by the core and refer to codes the enum does not declare.
- Concurrent logins and refreshes racing on the `refreshToken` field, and transaction atomicity, are left out. The model is sequential.
