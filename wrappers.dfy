/** Option and Result values used across the model for JavaScript's
    `undefined`/`null`, Python's `None`, and thrown exceptions. */
module Wrappers {

  datatype Option<+T> = None | Some(value: T)

  /** A computation that either returns a value or throws with a message. */
  datatype Result<+T> = Success(value: T) | Failure(error: string)
}
