/** Optional values and results, as used throughout the model. */
module Wrappers {

  /** `None` stands for JavaScript's `undefined` wherever a value may be missing. */
  datatype Option<+T> = None | Some(value: T)

  /** The value of a call that either returns normally or raises an error. */
  datatype Result<+R, +E> = Success(value: R) | Failure(error: E)
}
