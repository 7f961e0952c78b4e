/** Option and Result, the shapes in which the model returns Go's `(value, error)` pairs. */
module Wrappers {

  datatype Option<+T> = None | Some(value: T)

  datatype Result<+T, +E> = Success(value: T) | Failure(error: E)

  /** An error coming out of a library this repository only calls into; its text is not modelled. */
  datatype Cause = Cause(code: nat)

  /** The outcome of an external call that returns only an `error`. */
  datatype Outcome = Ok | Fail(cause: Cause)
}
