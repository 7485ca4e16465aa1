/** The Option and Result datatypes used throughout the model. */
module Wrappers {

  /** A value that may be missing (a JSON field that is `undefined` or `null`). */
  datatype Option<+T> = None | Some(value: T)

  /** The outcome of a step that either produces a value or throws an `Error` with a message. */
  datatype Result<+R, +E> = Success(value: R) | Failure(error: E)
}
