/** Failure-carrying values: the model's rendering of Go's `(value, error)` returns. */
module Wrappers {

  datatype Option<+T> = None | Some(value: T)

  /** A value, or the error the Go code would return beside a zero value. */
  datatype Result<+R, +E> = Success(value: R) | Failure(error: E)

  /** An operation that returns only a Go `error`: nil (Pass) or not (Fail). */
  datatype Outcome<+E> = Pass | Fail(error: E)
}
