/** Option, Result and Outcome: the shapes of Go's `(value, error)` returns. */
module Wrappers {

  datatype Option<+T> = None | Some(value: T)

  /** A value or the error that prevented producing it. */
  datatype Result<+T, +E> = Success(value: T) | Failure(error: E)

  /** The error of an operation that produces no value. */
  datatype Outcome<+E> = Pass | Fail(error: E)
}
