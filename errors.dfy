/** The exceptions the core raises or passes on, and their Python `str()`. */
module Errors {
  import Text

  datatype Error =
    | HttpError(status: nat, detail: string)   // fastapi.HTTPException
    | RuntimeError(message: string)
    | ValueError(message: string)
    | NameError(message: string)
    | TypeError(message: string)
    | AttributeError(message: string)
    | Failure(message: string)                 // any exception raised by a collaborator (decoder, model, metrics)

  /** `str(e)`: Starlette renders an HTTPException as "<status>: <detail>";
      every other exception renders as its message. */
  function Str(e: Error): (s: string)
    ensures e.HttpError? ==> s == Text.Digits(e.status) + ": " + e.detail
    ensures !e.HttpError? ==> s == e.message
  {
    match e
    case HttpError(status, detail) => Text.Digits(status) + ": " + detail
    case RuntimeError(m) => m
    case ValueError(m) => m
    case NameError(m) => m
    case TypeError(m) => m
    case AttributeError(m) => m
    case Failure(m) => m
  }
}
