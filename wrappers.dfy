/** Stock failure-carrying datatypes used across the model. */
module Wrappers {

  /** A value that may be absent (Python's `None`). */
  datatype Option<+T> = None | Some(value: T)

  /** Either a successful value or the error the source raises. */
  datatype Result<+R, +E> = Ok(value: R) | Err(error: E)
}
