/** Option and Result: the shapes the model uses for Python's `None` returns and raised exceptions. */
module Wrappers {

  /** A value that may be absent (Python's `None`). */
  datatype Option<+T> = None | Some(value: T)

  /** The outcome of an operation that may raise: `Success` carries the value, `Failure` the error. */
  datatype Result<+R, +E> = Success(value: R) | Failure(error: E)
}
