/** Option and Result values standing in for the exceptions and NaN results of the source. */
module Wrappers {

  datatype Option<+T> = None | Some(value: T)

  datatype Result<+R, +E> = Ok(value: R) | Err(error: E)

  /** The outcome of an operation that returns nothing but may fail. */
  datatype Outcome<+E> = Pass | Fail(error: E)
}
