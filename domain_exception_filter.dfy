/**
 * `DomainExceptionFilter.mapException` for the exceptions a use case can throw: each
 * domain error kind has its status and reason phrase and keeps its message; anything
 * else becomes a 500 with a fixed message. `catch` logs exactly the 5xx responses.
 */
module DomainExceptionFilter {
  import opened DomainErrors

  /** The response body's `statusCode`, `error` and `message`. */
  datatype ErrorResponse = ErrorResponse(statusCode: nat, error: string, message: string)

  const UNEXPECTED_MESSAGE := "An unexpected error occurred"

  /** The `instanceof` chain, first match wins. */
  function MapException(e: Exception): (r: ErrorResponse)
    ensures e.DomainError? ==> r.message == e.message && 400 <= r.statusCode < 500
    ensures e.UnexpectedError? ==> r == ErrorResponse(500, "Internal Server Error", UNEXPECTED_MESSAGE)
    ensures r.statusCode == 409 <==> e.DomainError? && e.kind == Conflict
    ensures r.statusCode == 404 <==> e.DomainError? && e.kind == NotFound
    ensures r.statusCode == 400 <==> e.DomainError? && e.kind == BadRequest
    ensures r.statusCode == 401 <==> e.DomainError? && e.kind == Unauthorized
    ensures r.statusCode == 403 <==> e.DomainError? && e.kind == Forbidden
  {
    match e
    case DomainError(Conflict, m) => ErrorResponse(409, "Conflict", m)
    case DomainError(NotFound, m) => ErrorResponse(404, "Not Found", m)
    case DomainError(BadRequest, m) => ErrorResponse(400, "Bad Request", m)
    case DomainError(Unauthorized, m) => ErrorResponse(401, "Unauthorized", m)
    case DomainError(Forbidden, m) => ErrorResponse(403, "Forbidden", m)
    case UnexpectedError(_) => ErrorResponse(500, "Internal Server Error", UNEXPECTED_MESSAGE)
  }

  /** `catch` writes a log entry only for server errors. */
  predicate ShouldLog(statusCode: nat)
    ensures ShouldLog(statusCode) ==>
      forall e: Exception {:trigger MapException(e)} :: e.DomainError? ==> MapException(e).statusCode != statusCode
    ensures MapException(UnexpectedError("")).statusCode == statusCode ==> ShouldLog(statusCode)
  {
    statusCode >= 500
  }

  /** Exactly the exceptions that are not domain errors are logged. */
  lemma LoggedIffUnexpected(e: Exception)
    ensures ShouldLog(MapException(e).statusCode) <==> e.UnexpectedError?
  {
  }

  /**
   * The status tells the error kind back: two domain errors get the same status only
   * when they are of the same kind, and the message of an unexpected error never
   * reaches the response.
   */
  lemma StatusDeterminesKind(e1: Exception, e2: Exception)
    ensures MapException(e1).statusCode == MapException(e2).statusCode ==>
      (e1.DomainError? <==> e2.DomainError?) && (e1.DomainError? ==> e1.kind == e2.kind)
    ensures e1.UnexpectedError? && e2.UnexpectedError? ==> MapException(e1) == MapException(e2)
  {
  }
}
