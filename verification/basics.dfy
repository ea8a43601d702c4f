/** Failure-carrying wrappers shared by the strategy and the ticker helpers. */
module Basics {

  /** A value that may be absent, such as an indicator that is still warming up. */
  datatype Option<+T> = None | Some(value: T)

  /** The outcome of an operation that the original raises an exception from. */
  datatype Result<+T, +E> = Ok(value: T) | Err(error: E)
}
