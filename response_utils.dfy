/** ResponseUtils: the static factories that build the response envelope. */
module ResponseUtils {
  import opened Wrappers
  import opened ResponseCodes

  /** HttpResponseDto: the body every endpoint returns. */
  datatype HttpResponseDto<T> = HttpResponseDto(httpStatus: int, message: Option<string>, data: Option<T>)

  /** ResponseEntity: an HTTP status together with a body. */
  datatype ResponseEntity<T> = ResponseEntity(status: int, body: HttpResponseDto<T>)

  /** The entity's status agrees with the status written into its body. */
  predicate Consistent<T>(e: ResponseEntity<T>) {
    e.status == e.body.httpStatus
  }

  /** error(code): the code's status, its message, and no data. */
  function Error(code: ResponseCode): (e: ResponseEntity<()>)
    ensures Consistent(e)
    ensures e.status == HttpStatus(code)
    ensures e.body.message == Some(Message(code)) && e.body.data.None?
  {
    ResponseEntity(HttpStatus(code), HttpResponseDto(HttpStatus(code), Some(Message(code)), None))
  }

  /** success(status): the status alone, with neither message nor data. */
  function Success(status: int): (e: ResponseEntity<()>)
    ensures Consistent(e)
    ensures e.status == status
    ensures e.body.message.None? && e.body.data.None?
  {
    ResponseEntity(status, HttpResponseDto(status, None, None))
  }

  /** success(status, data): the status and the data, with no message. */
  function SuccessWith<T>(status: int, data: T): (e: ResponseEntity<T>)
    ensures Consistent(e)
    ensures e.status == status
    ensures e.body.message.None? && e.body.data == Some(data)
  {
    ResponseEntity(status, HttpResponseDto(status, None, Some(data)))
  }
}
