/** Failure-carrying values: Rust's `Option`, `Result` and `Result<()>`. */
module Wrappers {

  datatype Option<+T> = None | Some(value: T)

  datatype Result<+T, +E> = Ok(value: T) | Err(error: E)

  /** A `Result<()>`: success carries nothing. */
  datatype Outcome<+E> = Pass | Fail(error: E)
}
