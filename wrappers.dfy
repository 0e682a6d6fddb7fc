/** Option and Result, the failure-compatible wrappers used by the model. */
module Wrappers {

  /** A value that may be absent: a JSON key that is missing, or Python's None. */
  datatype Option<+T> = None | Some(value: T)

  /** The outcome of an operation that may raise: Ok carries the value, Err the error. */
  datatype Result<+T, +E> = Ok(value: T) | Err(error: E)
}
