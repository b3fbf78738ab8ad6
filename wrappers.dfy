/** Option and Result, the two failure-carrying shapes the action uses
    (Rust's `Option<T>` and `anyhow::Result<T>`). */
module Wrappers {

  datatype Option<+T> = None | Some(value: T)

  datatype Result<+T, +E> = Ok(value: T) | Err(error: E)

  /** A result that carries no value on success, like Rust's `Result<()>`. */
  datatype Outcome<+E> = Pass | Fail(error: E)
}
