/** Optional values and results: the model's stand-in for Python's None and raised exceptions. */
module Wrappers {

  datatype Option<+T> = None | Some(value: T)

  /** A computation that either produced a value or stopped with an error (an exception in the source). */
  datatype Result<+R, +E> = Success(value: R) | Failure(error: E)
}
