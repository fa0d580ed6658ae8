/** Failure-carrying datatypes shared by the rest of the model. */
module Wrappers {

  /** A value that may be absent (a JavaScript `null` or missing field). */
  datatype Option<+T> = None | Some(value: T)

  /** The outcome of an operation that may throw: a value, or the thrown error. */
  datatype Result<+T, +E> = Success(value: T) | Failure(error: E)
}
