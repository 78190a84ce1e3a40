/** Failure-compatible wrappers shared by every module of the model. */
module Wrappers {

  /** A value that may be absent (JavaScript `null`/`undefined`). */
  datatype Option<+T> = None | Some(value: T)

  /** The outcome of an operation that may throw: the value, or the error message. */
  datatype Result<+R, +E> = Success(value: R) | Failure(error: E)
}
