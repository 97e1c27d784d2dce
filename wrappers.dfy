/** Failure-carrying values: the model's stand-in for Python's None and for exceptions. */
module Wrappers {

  /** A value that may be absent: Python's None, pandas' NaN / NaT. */
  datatype Option<+T> = None | Some(value: T)

  /** The outcome of a call that may raise: Ok with its value, or Err with the exception's message. */
  datatype Result<+T, +E> = Ok(value: T) | Err(error: E)
}
