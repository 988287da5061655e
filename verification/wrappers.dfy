/** Failure-carrying values shared by every module of the model. */
module Wrappers {

  /** A value that may be missing, like a Python attribute set to `None`. */
  datatype Option<+T> = None | Some(value: T)

  /** A computation that either produced a value or raised. */
  datatype Result<+T, +E> = Success(value: T) | Failure(error: E)
}
