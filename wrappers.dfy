/** Option and Result values used across the model. */
module Wrappers {

  /** A value that may be absent (Python's `None`). */
  datatype Option<+T> = None | Some(value: T)

  /** The outcome of a call that may raise: its value, or the rendering of the exception. */
  datatype Result<+T> = Success(value: T) | Failure(error: string)
}
