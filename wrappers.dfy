/** Optional values and results with an error, as used throughout the model. */
module Wrappers {

  /** A value that may be missing; `None` stands for JavaScript's `undefined`. */
  datatype Option<+T> = None | Some(value: T)

  /** The outcome of an operation that may fail (in JavaScript: throw). */
  datatype Result<+R, +E> = Success(value: R) | Failure(error: E)
}
