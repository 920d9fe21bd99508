/** The failure-carrying result types used across the model. */
module Wrappers {

  /** A value that may be absent: JavaScript's `undefined` / `null`. */
  datatype Option<+T> = None | Some(value: T) {
    function GetOr(default: T): T {
      match this
      case Some(v) => v
      case None => default
    }
  }

  /** The outcome of an operation that may throw: `Failure` carries the error message. */
  datatype Result<+T, +E> = Success(value: T) | Failure(error: E)

  /** The `{ isValid, errors }` object every validator of the application returns. */
  datatype Validation = Validation(isValid: bool, errors: seq<string>)
}
