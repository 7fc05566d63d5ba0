/** Failure-carrying values standing in for Go's `(T, error)` and `error` returns. */
module Wrappers {

  datatype Option<+T> = None | Some(value: T)

  /** A value, or the error that replaced it. */
  datatype Result<+T, +E> = Success(value: T) | Failure(error: E)

  /** A Go `error` return: nil (`Pass`) or an error value. */
  datatype Outcome<+E> = Pass | Fail(error: E)
}
