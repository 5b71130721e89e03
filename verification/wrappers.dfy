/** Optional and fallible values used throughout the model. */
module Wrappers {

  /** A value that may be absent; stands for a Java reference that may be null. */
  datatype Option<+T> = None | Some(value: T)

  /** The outcome of a call that may fail with an exception of type E. */
  datatype Result<+R, +E> = Success(value: R) | Failure(error: E)
}
