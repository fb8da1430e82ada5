/** Failure-carrying values shared by the modules of this model. */
module Wrappers {

  /** An optional value: Rust's `Option<T>`. */
  datatype Option<+T> = None | Some(value: T)

  /** A pass/fail outcome carrying an error message: Rust's `anyhow::Result<()>`. */
  datatype Outcome<+E> = Pass | Fail(error: E)

  /** A value or an error: Rust's `Result<T, E>`. */
  datatype Result<+T, +E> = Ok(value: T) | Err(error: E)
}
