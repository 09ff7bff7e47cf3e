/**
 * The exception hierarchy the core throws, folded into one datatype.
 *
 * UserAuthenticationException (parent of InvalidTokenException, UserInfoException and
 * UserDeletedException) is a Spring Security AuthenticationException; UserException
 * (parent of UserNotFoundException and UserAlreadyExistsException) is a plain
 * RuntimeException. The filters catch the first kind and not the second.
 */
module Exceptions {
  import opened ResponseCodes

  /** Which jjwt exception escaped. */
  datatype JwtError = ExpiredJwt | MalformedJwt

  datatype Failure =
    | UserAuthentication(code: ResponseCode)   // UserAuthenticationException
    | User(code: ResponseCode)                 // UserException
    | Jwt(kind: JwtError)                      // io.jsonwebtoken exceptions
    | DataIntegrityViolation                   // unique-username constraint on insert

  /** InvalidTokenException. */
  function InvalidToken(): (f: Failure)
  {
    UserAuthentication(INVALID_TOKENS)
  }

  /** UserInfoException. */
  function UserInfo(): (f: Failure)
  {
    UserAuthentication(INVALID_USER_INFO)
  }

  /** UserDeletedException. */
  function UserDeleted(): (f: Failure)
  {
    UserAuthentication(USER_DELETED)
  }

  /** UserNotFoundException: a UserException, not a UserAuthenticationException. */
  function UserNotFound(): (f: Failure)
    ensures f.User? && f.code == USER_NOT_FOUND
    ensures !f.UserAuthentication?
  {
    User(USER_NOT_FOUND)
  }

  /** UserAlreadyExistsException. */
  function UserAlreadyExists(): (f: Failure)
  {
    User(USER_ALREADY_EXISTS)
  }
}
