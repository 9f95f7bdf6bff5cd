/** Failure-carrying values used in place of the exceptions the bridge throws. */
module Wrappers {

  datatype Option<+T> = None | Some(value: T)

  /** A computed value, or the error that aborted the computation. */
  datatype Result<+T, +E> = Success(value: T) | Failure(error: E)

  /** The outcome of a check that returns nothing but may fail. */
  datatype Outcome<+E> = Pass | Fail(error: E)
}
