/** Optional values and throwing results, for the state container's loading paths. */
module Wrappers {

  /** A value that may be absent (Swift's `Optional`). */
  datatype Option<+T> = None | Some(value: T)

  /** The outcome of an operation that may throw (Swift's `throws`). */
  datatype Result<+R, +E> = Success(value: R) | Failure(error: E)
}
