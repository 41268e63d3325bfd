/** Optional values and error returns, shared by every module of the model. */
module Wrappers {

  /** A value that may be missing: an optional prop, a nullable field, an unset variable. */
  datatype Option<+T> = None | Some(value: T)

  /** The outcome of an operation that either produces a value or throws. */
  datatype Result<+T, +E> = Success(value: T) | Failure(error: E)
}
