/** The response envelope (`ApiResponse`) and the HTTP constants the service uses. */
module Api {
  import opened Wrappers

  /** A transaction id (a UUID in the service). */
  type Txid = nat

  const Ok200 := 200
  const Accepted202 := 202
  const BadRequest400 := 400
  const NotFound404 := 404

  /** `HttpStatus.X.getReasonPhrase()`. */
  const AcceptedPhrase := "Accepted"
  const BadRequestPhrase := "Bad Request"
  const InternalServerErrorPhrase := "Internal Server Error"

  /** `ApiResponse`: code, optional server message, the caller's txid and receipt time. */
  datatype Reply = Reply(code: int, serverMessage: Option<string>, txid: Txid, requestReceivedAt: int)
}
