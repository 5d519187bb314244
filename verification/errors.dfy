/**
 * The error kinds the core raises: the two classes of `src/lib/errors.js` and the
 * `ValidationError` that Joi throws. A validation error carries the first schema
 * constraint the submitted mock broke instead of Joi's free text.
 */
module Errors {

  /** Which response a response-level violation is about. */
  datatype Where =
    | Only              // the single `response` object
    | Item(index: nat)  // element `index` of a response sequence

  /** One constraint of the mock schema, broken. */
  datatype Violation =
    | NameMissing
    | NameEmpty
    | PathMissing
    | PathEmpty
    | MethodEmpty
    | ResponseMissing
    | BodyNotObjectOrArray(at: Where)
    | HeadersNotObject(at: Where)
    | StatusCodeMissing(at: Where)
    | StatusCodeTooLow(at: Where)
    | StatusCodeTooHigh(at: Where)

  datatype Error =
    | AlreadyExists(message: string)
    | NotFound(message: string)
    | Validation(violation: Violation)

  datatype Result<+T> = Ok(value: T) | Err(error: Error)

  const AlreadyExistsMessage: string := "Mock already exists"

  const ExhaustedMessage: string :=
    "Response found but response is empty. Perhaps there are no more responses in the sequence?"

  /** The `name` property of the thrown error object. */
  function Name(e: Error): string {
    match e
    case AlreadyExists(_) => "AlreadyExistsError"
    case NotFound(_) => "NotFoundError"
    case Validation(_) => "ValidationError"
  }

  /** The `message` property of the thrown error object. */
  function Message(e: Error): string {
    match e
    case AlreadyExists(m) => m
    case NotFound(m) => m
    case Validation(v) => Describe(v)
  }

  function Digit(d: nat): char
    requires d < 10
  {
    "0123456789"[d]
  }

  /** Decimal rendering of a natural number. */
  function NatToString(n: nat): (s: string)
    ensures |s| > 0
    decreases n
  {
    if n < 10 then [Digit(n)] else NatToString(n / 10) + [Digit(n % 10)]
  }

  function Label(at: Where, field: string): string {
    match at
    case Only => "\"response." + field + "\""
    case Item(i) => "\"response[" + NatToString(i) + "]." + field + "\""
  }

  /** A Joi-style sentence for a violation, labelled with the offending key's path. */
  function Describe(v: Violation): string {
    match v
    case NameMissing => "\"name\" is required"
    case NameEmpty => "\"name\" is not allowed to be empty"
    case PathMissing => "\"request.path\" is required"
    case PathEmpty => "\"request.path\" is not allowed to be empty"
    case MethodEmpty => "\"request.method\" is not allowed to be empty"
    case ResponseMissing => "\"response\" is required"
    case BodyNotObjectOrArray(at) => Label(at, "body") + " must be one of [object, array]"
    case HeadersNotObject(at) => Label(at, "headers") + " must be of type object"
    case StatusCodeMissing(at) => Label(at, "statusCode") + " is required"
    case StatusCodeTooLow(at) => Label(at, "statusCode") + " must be greater than 199"
    case StatusCodeTooHigh(at) => Label(at, "statusCode") + " must be less than 600"
  }
}
