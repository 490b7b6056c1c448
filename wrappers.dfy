/** Failure-carrying values used in place of Go's `(value, error)` returns. */
module Wrappers {

  datatype Option<+T> = None | Some(value: T)

  /** A value, or the error that replaced it. */
  datatype Result<+T, +E> = Ok(value: T) | Err(error: E)

  /** The outcome of an operation that returns only an error (nil on success). */
  datatype Outcome<+E> = Pass | Fail(error: E)
}
