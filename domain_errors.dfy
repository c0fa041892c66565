/**
 * The domain error hierarchy (`NotFoundError`, `ConflictError`, `BadRequestError`,
 * `UnauthorizedError`, `ForbiddenError`) and every other exception a use case can throw.
 * A thrown exception becomes the `Err`/`Fail` alternative of a result.
 */
module DomainErrors {

  datatype ErrorKind = NotFound | Conflict | BadRequest | Unauthorized | Forbidden

  datatype Exception =
    | DomainError(kind: ErrorKind, message: string)
    /** Any exception that is not a domain error (database failures, for one). */
    | UnexpectedError(message: string)

  datatype Result<+T> = Ok(value: T) | Err(error: Exception)

  datatype Outcome = Pass | Fail(error: Exception)

  /**
   * The message of `new NotFoundError(resource, id)`: the id is named only when it is a
   * non-empty string, because the empty string is falsy.
   */
  function NotFoundMessage(resource: string, id: string): (m: string)
    ensures resource <= m
    ensures |id| > 0 ==> resource + " with id " + id <= m
    ensures |id| == 0 ==> m == resource + " not found"
    ensures m[|m| - |" not found"|..] == " not found"
  {
    if |id| > 0 then resource + " with id " + id + " not found" else resource + " not found"
  }

  function NotFoundError(resource: string, id: string): (e: Exception)
    ensures e.DomainError? && e.kind == NotFound && e.message == NotFoundMessage(resource, id)
  {
    DomainError(NotFound, NotFoundMessage(resource, id))
  }

  function BadRequestError(message: string): (e: Exception)
    ensures e.DomainError? && e.kind == BadRequest && e.message == message
  {
    DomainError(BadRequest, message)
  }

  function ForbiddenError(message: string): (e: Exception)
    ensures e.DomainError? && e.kind == Forbidden && e.message == message
  {
    DomainError(Forbidden, message)
  }

  function ConflictError(message: string): (e: Exception)
    ensures e.DomainError? && e.kind == Conflict && e.message == message
  {
    DomainError(Conflict, message)
  }
}
