/** Failure-carrying datatypes used throughout the model. */
module Wrappers {

  /** A value that may be absent (Python's `None`). */
  datatype Option<+T> = None | Some(value: T)

  /** The outcome of a step that may raise an uncaught exception. */
  datatype Result<+R, +E> = Ok(value: R) | Err(error: E)
}
