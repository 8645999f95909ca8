/** The result types that several modules share. */
module Wrappers {
  /** Python's `Optional`. */
  datatype Option<+T> = None | Some(value: T)

  /** A value, or the exception that the code raises. */
  datatype Result<+T, +E> = Ok(value: T) | Err(error: E)
}
