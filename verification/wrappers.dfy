/** Option and Result, the failure-carrying values used across the model. */
module Wrappers {

  datatype Option<+T> = None | Some(value: T)

  /** A fallible computation: `Ok` with a value or `Err` with an error. */
  datatype Result<+T, +E> = Ok(value: T) | Err(error: E)
}
