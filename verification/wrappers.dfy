/** Failure-compatible result shapes shared by the address modules. */
module Wrappers {

  /** A value that may be absent, as Go's nil error or a missing match. */
  datatype Option<+T> = None | Some(value: T)

  /** The outcome of an operation that either produces a value or fails with an error. */
  datatype Result<+T, +E> = Success(value: T) | Failure(error: E)
}
