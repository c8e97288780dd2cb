/** Option and Result, the usual failure-compatible wrappers. */
module Wrappers {

  /** A value that may be missing; `None` stands for a Java `null`. */
  datatype Option<+T> = None | Some(value: T)

  /** A value or the error that was raised instead of it. */
  datatype Result<+R, +E> = Success(value: R) | Failure(error: E)
}
