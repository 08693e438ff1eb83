/** Failure-carrying values shared by the parsers: Python's `None` results and raised exceptions. */
module Wrappers {

  /** A value that may be Python's `None` */
  datatype Option<+T> = None | Some(value: T)

  /** A normal return or a raised error */
  datatype Result<+T, +E> = Ok(value: T) | Err(error: E)
}
