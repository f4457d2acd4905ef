/** Optional values and results with an error, as used throughout the model. */
module Wrappers {

  datatype Option<+T> = None | Some(value: T)

  /** The outcome of an operation that raises in the original program. */
  datatype Result<+R, +E> = Success(value: R) | Failure(error: E)
}
