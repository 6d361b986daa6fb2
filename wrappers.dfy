/** Option and Result, used for JavaScript's `null` and for the outcome of a call that can throw. */
module Wrappers {

  datatype Option<+T> = None | Some(value: T)

  /** The outcome of an operation that either returns a value or throws an error with a message. */
  datatype Result<+T> = Success(value: T) | Failure(error: string)
}
