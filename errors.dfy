/** The HTTP errors raised by the services, as values. */
module Errors {

  datatype Error =
    | NotFound(detail: string)       // 404
    | Forbidden(detail: string)      // 403
    | Unprocessable(detail: string)  // 422

  /** The HTTP status code the error is raised with. */
  function StatusCode(e: Error): int
  {
    match e
    case NotFound(_) => 404
    case Forbidden(_) => 403
    case Unprocessable(_) => 422
  }

  datatype Option<+T> = None | Some(value: T) {
    function GetOr(default: T): T
    {
      match this
      case Some(v) => v
      case None => default
    }
  }

  datatype Result<+T> = Success(value: T) | Failure(error: Error)

  /** A guard: it either lets the operation go on or raises. */
  datatype Outcome = Pass | Fail(error: Error)
}
