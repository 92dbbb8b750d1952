/** Failure-carrying wrappers shared by the whole model. */
module Wrappers {

  /** A value that may be absent, as Python's `None`. */
  datatype Option<+T> = None | Some(value: T)

  /** The outcome of an operation that can raise: a value or the reason it failed. */
  datatype Result<+T, +E> = Ok(value: T) | Err(error: E)
}
