/** Optional values and results with an error, as used throughout the model. */
module Wrappers {

  /** A value that may be absent (Python's `None`, or an attribute that is missing). */
  datatype Option<+T> = None | Some(value: T)

  /** The outcome of a translation: a value, or the error that stopped it. */
  datatype Result<+T, +E> = Success(value: T) | Failure(error: E)
}
