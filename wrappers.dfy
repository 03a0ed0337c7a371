/** Option and Result, the two failure-carrying types the tools use
    (Rust's Option<T> and Result<T, String>). */
module Wrappers {

  datatype Option<+T> = None | Some(value: T)

  /** A result whose error is a human-readable message. */
  datatype Result<+T> = Ok(value: T) | Err(msg: string)
}
