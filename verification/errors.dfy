/**
 * The service's exceptions as values, and the global handler that turns each
 * into an HTTP status and an error body (GlobalExceptionHandler).
 */
module Errors {
  import opened Base

  /** The five domain exceptions, and every other exception. */
  datatype ErrorKind = BadRequest | Unauthorized | Forbidden | NotFound | Conflict | Internal

  /** A thrown exception: its kind and its `getMessage()`, which may be null. */
  datatype Error = Error(kind: ErrorKind, message: Option<string>)

  /** An operation that returns a value or throws. */
  datatype Result<+T> = Ok(value: T) | Err(error: Error)

  /** Throwing a domain exception with a message. */
  function Throw<T>(kind: ErrorKind, message: string): Result<T> {
    Err(Error(kind, Some(message)))
  }

  /** The JSON body of every error response (ApiErrorResponse). */
  datatype ApiErrorResponse = ApiErrorResponse(error: string, message: Option<string>, timestamp: int, path: string)

  datatype ErrorResponse = ErrorResponse(status: int, body: ApiErrorResponse)

  /** The error codes the handler uses, by HTTP status. */
  function CodeForStatus(status: int): string {
    match status
    case 400 => "BAD_REQUEST"
    case 401 => "UNAUTHORIZED"
    case 403 => "FORBIDDEN"
    case 404 => "NOT_FOUND"
    case 409 => "CONFLICT"
    case _ => "INTERNAL_ERROR"
  }

  /** Which exception a status answers; the handler's table read backwards. */
  function KindForStatus(status: int): ErrorKind {
    match status
    case 400 => BadRequest
    case 401 => Unauthorized
    case 403 => Forbidden
    case 404 => NotFound
    case 409 => Conflict
    case _ => Internal
  }

  /**
   * The exception handler. The status identifies the exception kind, the
   * error code follows from the status, only unexpected exceptions give 500,
   * and the message and request URI are passed through unchanged.
   */
  function Handle(e: Error, requestUri: string, now: int): (r: ErrorResponse)
    ensures KindForStatus(r.status) == e.kind
    ensures r.body.error == CodeForStatus(r.status)
    ensures r.status == 500 <==> e.kind == Internal
    ensures e.kind != Internal ==> 400 <= r.status < 500
    ensures r.body.message == e.message && r.body.path == requestUri && r.body.timestamp == now
  {
    var (status, code) := match e.kind
      case BadRequest => (400, "BAD_REQUEST")
      case Unauthorized => (401, "UNAUTHORIZED")
      case Forbidden => (403, "FORBIDDEN")
      case NotFound => (404, "NOT_FOUND")
      case Conflict => (409, "CONFLICT")
      case Internal => (500, "INTERNAL_ERROR");
    ErrorResponse(status, ApiErrorResponse(code, e.message, now, requestUri))
  }

  /** Distinct exception kinds never share a status. */
  lemma HandleSeparatesKinds(e1: Error, e2: Error, uri: string, now: int)
    requires e1.kind != e2.kind
    ensures Handle(e1, uri, now).status != Handle(e2, uri, now).status
  {
  }
}
