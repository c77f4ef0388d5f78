/** Option and Result, for values that may be missing and calls that may raise. */
module Wrappers {
  datatype Option<+T> = None | Some(value: T)

  /** Failure carries the text of the exception the Python code catches. */
  datatype Result<+T, +E> = Success(value: T) | Failure(error: E)
}
