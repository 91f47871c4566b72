/** Option and Result values shared by every module of the model. */
module Wrappers {

  /** A value that may be absent: a null pointer, a missing entry or an empty lookup. */
  datatype Option<+T> = None | Some(value: T)

  /** An operation that either produces a value or fails with an error. */
  datatype Result<+T, +E> = Ok(value: T) | Err(error: E)
}
