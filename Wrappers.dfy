/** Option and Result, the two failure-carrying datatypes used by the model. */
module Wrappers {

  datatype Option<+T> = None | Some(value: T)

  /** The outcome of an operation that can fail the way a Go `(value, error)` pair does. */
  datatype Result<+T, +E> = Ok(value: T) | Err(error: E)
}
