/** Failure-carrying results shared by every module of the model. */
module Wrappers {

  datatype Option<+T> = None | Some(value: T)

  /** A value, or the error that made the source panic. */
  datatype Result<+T, +E> = Success(value: T) | Failure(error: E)

  /** An outcome with no value: the operation finished, or it panicked with `error`. */
  datatype Outcome<+E> = Pass | Fail(error: E)
}
