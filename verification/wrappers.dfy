/** Failure-carrying values shared by the other modules. */
module Wrappers {

  /** A value that may be absent; stands for Python's `None` and SQL `NULL`. */
  datatype Option<+T> = None | Some(value: T)

  /** Either a value or the error that stopped its computation. */
  datatype Result<+T, +E> = Success(value: T) | Failure(error: E)
}
