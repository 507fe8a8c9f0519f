/** Option and Result, used for Java's `null` and for its exceptions. */
module Wrappers {

  /** A value or Java's `null`. */
  datatype Option<+T> = None | Some(value: T)

  /** A normal return or the exception that ended the computation. */
  datatype Result<+T, +E> = Ok(value: T) | Err(error: E)
}
