/** Failure-compatible result types used across the model. */
module Wrappers {

  /** Rust's `Option<T>`. */
  datatype Option<+T> = None | Some(value: T)

  /** A fallible operation that returns a value. */
  datatype Result<+T, +E> = Ok(value: T) | Err(error: E)

  /** A fallible operation that returns nothing (Rust's `Result<(), E>`). */
  datatype Outcome<+E> = Pass | Fail(error: E)
}
