/** Optional values and results with an error, as used across the model. */
module Wrappers {

  /** A value that may be absent: an optional field of a request, or a library call that threw. */
  datatype Option<+T> = None | Some(value: T)

  /** The outcome of an operation that either produces a value or fails with an error. */
  datatype Result<+T, +E> = Ok(value: T) | Err(error: E)
}
