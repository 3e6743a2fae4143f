/** Option, Result and Outcome: the model's stand-ins for Go's multiple
    return values with an `error` in last position. */
module Wrappers {

  /** A value that may be absent (an unset environment variable, say). */
  datatype Option<+T> = None | Some(value: T)

  /** A value or the error that took its place. */
  datatype Result<+T, +E> = Success(value: T) | Failure(error: E)

  /** The outcome of a call that returns only an `error`. */
  datatype Outcome<+E> = Pass | Fail(error: E)
}
