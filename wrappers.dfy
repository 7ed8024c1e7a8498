/** The Option and Result datatypes shared by the model. */
module Wrappers {

  /** Python's `None`-or-value, used wherever the source tests for absence. */
  datatype Option<+T> = None | Some(value: T)

  /** A value or an error message. */
  datatype Result<+T, +E> = Ok(value: T) | Err(error: E)
}
