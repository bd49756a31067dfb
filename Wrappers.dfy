/** Failure-carrying result types shared by the modules of this model. */
module Wrappers {

  datatype Option<+T> = None | Some(value: T)

  /** `Failure` carries what went wrong; used where the source raises. */
  datatype Result<+T, +E> = Success(value: T) | Failure(error: E)
}
