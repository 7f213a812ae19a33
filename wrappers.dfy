/** Option and Result, the two failure-carrying datatypes the model uses. */
module Wrappers {

  /** A value that may be absent (Python's None). */
  datatype Option<+T> = None | Some(value: T)

  /** Either a value or the error the source reports instead of it. */
  datatype Result<+T, +E> = Success(value: T) | Failure(error: E)
}
