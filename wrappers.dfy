/** Option and Result: the model's stand-ins for JavaScript's `null` and for a rejected promise. */
module Wrappers {

  /** `None` plays the part of the `null` the navigator closures return. */
  datatype Option<+T> = None | Some(value: T)

  /** `Failure` plays the part of a promise rejected with `error`. */
  datatype Result<+T, +E> = Success(value: T) | Failure(error: E)
}
