/** Optional values and results with an error value, shared by every module of the model. */
module Wrappers {

  /** A value that may be missing, as a JavaScript `undefined` or a failed regular-expression match. */
  datatype Option<+T> = None | Some(value: T)

  /** The outcome of an operation that may throw: either a value or the error that was thrown. */
  datatype Result<+T, +E> = Success(value: T) | Failure(error: E)
}
