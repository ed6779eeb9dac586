/** Failure-carrying datatypes used throughout the model: Go's `nil`-able values become
    `Option`, and Go's `(value, error)` returns become `Result`. */
module Wrappers {

  /** A value that may be absent (Go `nil`). */
  datatype Option<+T> = None | Some(value: T)

  /** Either a value or the error that prevented it. */
  datatype Result<+T, +E> = Success(value: T) | Failure(error: E)
}
