/** Option and Result values for the Python `None` returns and raised exceptions of the model. */
module Wrappers {

  /** A value that may be missing (`None` in the source). */
  datatype Option<+T> = None | Some(value: T)

  /** A value, or the exception the source raises instead of returning one. */
  datatype Result<+T, +E> = Ok(value: T) | Err(error: E)
}
