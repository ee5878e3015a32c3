/** Option and Result, used where the Go code returns a nil pointer or an error. */
module Wrappers {

  /** A value that may be absent (a nil pointer in the Go code). */
  datatype Option<+T> = None | Some(value: T)

  /** The outcome of a call that either yields a value or fails with an error of type E. */
  datatype Result<+T, +E> = Ok(value: T) | Err(error: E)
}
