/** Option and Result values standing in for Python's `None` returns and raised exceptions. */
module Wrappers {

  /** A value that may be absent (Python's `None`). */
  datatype Option<+T> = None | Some(value: T)

  /** The outcome of an operation that either returns a value or raises `ValueError(error)`. */
  datatype Result<+R, +E> = Success(value: R) | Failure(error: E)
}
