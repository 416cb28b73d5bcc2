/** Optional values and results with an error, as used across the model. */
module Wrappers {

  /** A value that may be missing; Python's `None` return. */
  datatype Option<+T> = None | Some(value: T)

  /** A value or the error that replaced it. */
  datatype Result<+T, +E> = Success(value: T) | Failure(error: E)
}
