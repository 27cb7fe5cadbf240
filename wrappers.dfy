/** Option and Result, the two shapes in which the extension reports absence and failure. */
module Wrappers {

  datatype Option<+T> = None | Some(value: T)

  /** A Rust-style result: `Ok` carries the value, `Err` the error message. */
  datatype Result<+T, +E> = Ok(value: T) | Err(error: E)
}
