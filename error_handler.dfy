/**
 * The global error handler: every error a handler throws becomes exactly one JSON error
 * response `{ success: false, error: { code, message } }` with an HTTP status.
 */
module ErrorHandler {
  import opened Errors

  datatype Response = Response(status: int, code: string, message: string)

  /** An error whose `name` a Mongoose schema validator sets. */
  predicate IsValidationError(t: Thrown) {
    t.Other? && t.name == "ValidationError"
  }

  /** An error whose `name` a failed id cast sets. */
  predicate IsCastError(t: Thrown) {
    t.Other? && t.name == "CastError"
  }

  /**
   * `errorHandler`: a `ServiceError` keeps its own status, code and message; then a
   * validation error, then a cast error; anything else is an internal error. The checks run
   * in this order, so the first that applies decides.
   */
  function Handle(t: Thrown): (r: Response)
    ensures t.Service? ==> r == Response(t.error.statusCode, t.error.code, t.error.message)
    ensures IsValidationError(t) ==> r == Response(400, "VALIDATION_ERROR", t.message)
    ensures IsCastError(t) ==> r.status == 400 && r.code == "INVALID_ID"
    ensures t.Other? && !IsValidationError(t) && !IsCastError(t) ==>
      r == Response(500, "INTERNAL_ERROR", "Lỗi server, vui lòng thử lại sau")
    ensures t.Other? ==> (r.status == 500 <==> !IsValidationError(t) && !IsCastError(t))
  {
    match t
    case Service(e) => Response(e.statusCode, e.code, e.message)
    case Other(name, message) =>
      if name == "ValidationError" then Response(400, "VALIDATION_ERROR", message)
      else if name == "CastError" then Response(400, "INVALID_ID", "ID không hợp lệ")
      else Response(500, "INTERNAL_ERROR", "Lỗi server, vui lòng thử lại sau")
  }

  /**
   * A table error reaches the client with its own code and with the status its kind
   * dictates; none of them is a server error.
   */
  lemma TableErrorResponse(k: ErrorKey)
    ensures Handle(Service(ErrorTable(k))).code == KeyName(k)
    ensures Handle(Service(ErrorTable(k))).status == KeyStatus(k)
    ensures Handle(Service(ErrorTable(k))).status != 500
  {
    assert KeyStatus(k) in {400, 401, 403, 404};
  }
}
