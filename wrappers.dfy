/** Option and Result, the two failure-carrying datatypes the model uses. */
module Wrappers {

  /** A value that may be absent: a cell that is not a number, a date that did not parse. */
  datatype Option<+T> = None | Some(value: T)

  /** The outcome of a run that can abort with an error. */
  datatype Result<+T, +E> = Ok(value: T) | Err(error: E)
}
