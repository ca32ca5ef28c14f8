/** The error kinds of the bridge, the error it raises, and the mapping of
    anything thrown to the payload returned to a caller (src/errors.ts). */
module Errors {
  import opened Wrappers
  import opened JsonValue

  datatype ErrorCode =
    | ConfigError
    | ApiNotFound
    | EndpointNotFound
    | AuthError
    | RequestError
    | SchemaError
  {
    function Tag(): string {
      match this
      case ConfigError => "CONFIG_ERROR"
      case ApiNotFound => "API_NOT_FOUND"
      case EndpointNotFound => "ENDPOINT_NOT_FOUND"
      case AuthError => "AUTH_ERROR"
      case RequestError => "REQUEST_ERROR"
      case SchemaError => "SCHEMA_ERROR"
    }
  }

  /** An `OpenApiMcpError`: kind, message and structured details. */
  datatype Error = Error(code: ErrorCode, message: string, details: Option<Json>)

  datatype Result<+T> = Ok(value: T) | Err(error: Error) {
    predicate IsFailure() {
      Err?
    }

    function PropagateFailure<U>(): Result<U>
      requires Err?
    {
      Err(error)
    }

    function Extract(): T
      requires Ok?
    {
      value
    }
  }

  /** What may reach `asErrorResponse`: an `OpenApiMcpError`, any other
      `Error` (only its message matters), or a value that is not an `Error`. */
  datatype Thrown =
    | McpError(error: Error)
    | NativeError(message: string)
    | NonError(value: Json)

  /** The `TypeError` that `new URL` throws on a string it cannot parse, as
      `asErrorResponse` reports it: a `REQUEST_ERROR` with the error's
      message and no details. */
  const InvalidUrl: Error := Error(RequestError, "Invalid URL", None)

  datatype ErrorPayload = ErrorPayload(code: ErrorCode, message: string, details: Option<Json>)

  /** The payload keeps everything an `OpenApiMcpError` carries; anything
      else is reported as a `REQUEST_ERROR`, keeping an `Error`'s message,
      and keeping a non-`Error` value as the details. */
  function AsErrorResponse(thrown: Thrown): (p: ErrorPayload)
    ensures thrown.McpError? ==>
      p.code == thrown.error.code && p.message == thrown.error.message && p.details == thrown.error.details
    ensures !thrown.McpError? ==> p.code == RequestError
    ensures thrown.NativeError? ==> p.message == thrown.message && p.details.None?
    ensures thrown.NonError? ==> p.message == "Unknown error" && p.details == Some(thrown.value)
  {
    match thrown
    case McpError(e) => ErrorPayload(e.code, e.message, e.details)
    case NativeError(m) => ErrorPayload(RequestError, m, None)
    case NonError(v) => ErrorPayload(RequestError, "Unknown error", Some(v))
  }

  /** A payload whose code is not `REQUEST_ERROR` comes from an
      `OpenApiMcpError` of that very code, and the wire tag of a payload is
      one of the six error-kind tags, distinct per kind. */
  lemma PayloadCodeOrigin(thrown: Thrown)
    ensures AsErrorResponse(thrown).code != RequestError ==>
      thrown.McpError? && thrown.error.code == AsErrorResponse(thrown).code
    ensures AsErrorResponse(thrown).code.Tag() in
      {"CONFIG_ERROR", "API_NOT_FOUND", "ENDPOINT_NOT_FOUND", "AUTH_ERROR", "REQUEST_ERROR", "SCHEMA_ERROR"}
  {
  }

  /** The error kind a wire name stands for, if any. */
  function CodeOfTag(tag: string): (c: Option<ErrorCode>)
    ensures c.Some? ==> c.value.Tag() == tag
    ensures c.None? ==> forall k: ErrorCode :: k.Tag() != tag
  {
    if tag == "CONFIG_ERROR" then Some(ConfigError)
    else if tag == "API_NOT_FOUND" then Some(ApiNotFound)
    else if tag == "ENDPOINT_NOT_FOUND" then Some(EndpointNotFound)
    else if tag == "AUTH_ERROR" then Some(AuthError)
    else if tag == "REQUEST_ERROR" then Some(RequestError)
    else if tag == "SCHEMA_ERROR" then Some(SchemaError)
    else None
  }

  /** A caller reading only the wire name of a payload's code recovers the
      code: no two kinds share a wire name. */
  lemma PayloadTagRecoversCode(thrown: Thrown)
    ensures CodeOfTag(AsErrorResponse(thrown).code.Tag()) == Some(AsErrorResponse(thrown).code)
  {
  }
}
