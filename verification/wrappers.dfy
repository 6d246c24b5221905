/** Option and Result values, used where the source has `null`/`undefined`
    or throws an Error. */
module Wrappers {

  /** `None` stands for JavaScript's `null` or `undefined`. */
  datatype Option<+T> = None | Some(value: T) {

    /** The value, or `default` when absent (the source's `x ?? default`). */
    function GetOr(default: T): T {
      match this
      case Some(v) => v
      case None => default
    }
  }

  /** The outcome of a call that either returns a value or throws an Error
      carrying a message. */
  datatype Result<+R, +E> = Success(value: R) | Failure(error: E)
}

/** A thrown JavaScript value, as seen by a `catch` block. */
module JsErrors {

  /** `ErrorValue` is an instance of `Error` (it carries a message); `OtherValue`
      is anything else that was thrown. */
  datatype Thrown = ErrorValue(message: string) | OtherValue

  /** The message a `catch` block shows:
      `error instanceof Error ? error.message : fallback`. */
  function MessageOf(e: Thrown, fallback: string): (m: string)
    ensures e.ErrorValue? ==> m == e.message
    ensures e.OtherValue? ==> m == fallback
  {
    match e
    case ErrorValue(m) => m
    case OtherValue => fallback
  }
}
