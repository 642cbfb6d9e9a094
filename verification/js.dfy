/** JavaScript values as the client sees them after `res.json()`, the errors
    the client throws, and the Option/Result wrappers the rest of the model
    uses in place of exceptions. */
module Js {

  datatype Option<+T> = None | Some(value: T) {
    function GetOr(default: T): T {
      match this
      case Some(v) => v
      case None => default
    }
  }

  /** A JSON-compatible JavaScript value. `Undefined` never comes out of a
      JSON parse; it appears only in request bodies the client builds.
      Objects are their own enumerable properties in enumeration order. */
  datatype Value =
    | Undefined
    | Null
    | Bool(b: bool)
    | Num(n: real)
    | Str(s: string)
    | Arr(items: seq<Value>)
    | Obj(fields: seq<Field>)

  /** One own enumerable property of an object. */
  datatype Field = Field(key: string, val: Value)

  /** The JavaScript `typeof` operator; note that `typeof null` is "object". */
  function Typeof(v: Value): (t: string)
    ensures t == "object" <==> v.Null? || v.Arr? || v.Obj?
  {
    match v
    case Undefined => "undefined"
    case Null => "object"
    case Bool(_) => "boolean"
    case Num(_) => "number"
    case Str(_) => "string"
    case Arr(_) => "object"
    case Obj(_) => "object"
  }

  /** The `cause` attached to a thrown error. A transport failure from the
      runtime's fetch carries an AggregateError whose `code` property names
      the OS-level failure. */
  datatype Cause =
    | NoCause
    | Aggregate(code: Option<string>)
    | OtherCause

  /** The errors that can leave the client. */
  datatype JsError =
    | Error(message: string)
    | TypeError(message: string, cause: Cause)
    | SyntaxError(message: string)
    /** FicsitRemoteMonitoringRequestError: HTTP status, the message taken
        from the body, and the raw body. */
    | RequestError(code: int, errorMessage: Value, rawBody: Value)

  /** Either a value or the error a JavaScript call would throw. */
  datatype Result<+T> = Success(value: T) | Failure(error: JsError) {
    predicate IsFailure() {
      Failure?
    }

    function PropagateFailure<U>(): Result<U>
      requires Failure?
    {
      Failure(error)
    }

    function Extract(): T
      requires Success?
    {
      value
    }
  }
}
