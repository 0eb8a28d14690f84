/** Option and Result used by the probing model. */
module Wrappers {

  /** A value that may be absent; the model's rendering of Python's `None`. */
  datatype Option<+T> = None | Some(value: T)

  /** The outcome of an operation that either returns a value or raises an error. */
  datatype Result<+T, +E> = Success(value: T) | Failure(error: E)
}
