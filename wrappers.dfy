/** Failure-carrying values shared by every module of the model. */
module Wrappers {

  /** A value that may be missing; the opaque decoders answer with one. */
  datatype Option<+T> = None | Some(value: T)

  /** A value or the error that replaced it (Go's `(T, error)` pair). */
  datatype Result<+T, +E> = Success(value: T) | Failure(error: E)

  /** An operation that returns only an error or nothing (Go's bare `error`). */
  datatype Outcome<+E> = Pass | Fail(error: E)
}
