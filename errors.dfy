/**
 * The result of a request handler. `error_handler` turns an `HttpException`
 * into an HTTP error carrying its status code and message, and any other
 * exception into a 500; a use case that returns normally is a success.
 */
module Errors {
  import opened Wrappers

  datatype Outcome<T> =
    | Ok(value: T)
    | HttpErr(code: int, message: string)
    | Internal

  const InternalMessage := "Internal server error"

  /** The status code and details of the error response `error_handler`
      builds, or None when the use case returned normally. */
  function ErrorResponse<T>(o: Outcome<T>): (r: Option<(int, string)>)
    ensures r.None? <==> o.Ok?
    ensures o.HttpErr? ==> r == Some((o.code, o.message))
    ensures o.Internal? ==> r == Some((500, InternalMessage))
  {
    match o
    case Ok(_) => None
    case HttpErr(code, message) => Some((code, message))
    case Internal => Some((500, InternalMessage))
  }

  /** Python truthiness of an optional string: present and not empty. */
  predicate Given(s: Option<string>) {
    s.Some? && s.value != ""
  }

  /** The message of both workflows' 401 responses. */
  const InvalidToken := "Token inválido ou expirado!"
}
