/**
 * ResponseCodeEnum: the table from response code to (HTTP status, message).
 *
 * The five declared constants keep their status and message. INVALID_USER_INFO is
 * referenced by UserInfoException but not declared in the enum, so its status and
 * message are left as unspecified constants.
 */
module ResponseCodes {

  datatype ResponseCode =
    | USER_NOT_FOUND
    | USER_ALREADY_EXISTS
    | USER_DELETED
    | INVALID_TOKENS
    | REFRESH_TOKEN_EXPIRED
    | INVALID_USER_INFO

  /** HTTP status values used by the enum and by the filters. */
  const OK: int := 200
  const UNAUTHORIZED: int := 401
  const NOT_FOUND: int := 404
  const CONFLICT: int := 409

  /** The status and message of the undeclared INVALID_USER_INFO constant are not known. */
  const InvalidUserInfoStatus: int
  const InvalidUserInfoMessage: string

  /** True of the five constants the enum actually declares. */
  predicate Declared(c: ResponseCode) {
    !c.INVALID_USER_INFO?
  }

  function HttpStatus(c: ResponseCode): (s: int)
    ensures c.USER_NOT_FOUND? ==> s == NOT_FOUND
    ensures c.USER_ALREADY_EXISTS? ==> s == CONFLICT
    ensures c.USER_DELETED? || c.INVALID_TOKENS? || c.REFRESH_TOKEN_EXPIRED? ==> s == UNAUTHORIZED
    ensures Declared(c) ==> 400 <= s < 500
  {
    match c
    case USER_NOT_FOUND => NOT_FOUND
    case USER_ALREADY_EXISTS => CONFLICT
    case USER_DELETED => UNAUTHORIZED
    case INVALID_TOKENS => UNAUTHORIZED
    case REFRESH_TOKEN_EXPIRED => UNAUTHORIZED
    case INVALID_USER_INFO => InvalidUserInfoStatus
  }

  function Message(c: ResponseCode): (m: string)
    ensures Declared(c) ==> |m| > 0
  {
    match c
    case USER_NOT_FOUND => "사용자를 찾을 수 없습니다"
    case USER_ALREADY_EXISTS => "이미 존재하는 사용자명입니다."
    case USER_DELETED => "탈퇴한 사용자입니다"
    case INVALID_TOKENS => "유효하지 않은 토큰입니다"
    case REFRESH_TOKEN_EXPIRED => "토큰이 만료되었습니다."
    case INVALID_USER_INFO => InvalidUserInfoMessage
  }

  /** Each declared constant has its own message: a message identifies its code. */
  lemma MessagesDistinct(c: ResponseCode, d: ResponseCode)
    requires Declared(c) && Declared(d) && c != d
    ensures Message(c) != Message(d)
  {
  }

  /** Among the declared constants, only USER_NOT_FOUND and USER_ALREADY_EXISTS are not 401. */
  lemma UnauthorizedFamily(c: ResponseCode)
    requires Declared(c)
    ensures HttpStatus(c) == UNAUTHORIZED <==> c in {USER_DELETED, INVALID_TOKENS, REFRESH_TOKEN_EXPIRED}
  {
  }
}
