/** Failure-carrying datatypes shared by the other modules: Rust's `Option`,
    `Result`, and a value-less pass/fail outcome for writer steps that return `()`. */
module Wrappers {

  /** Rust's `Option<T>`. */
  datatype Option<+T> = None | Some(value: T)

  /** Rust's `Result<T, E>`. */
  datatype Result<+T, +E> = Ok(value: T) | Err(error: E)

  /** A `Result<(), E>`: a step that either passes or fails with an error. */
  datatype Outcome<+E> = Pass | Fail(error: E)
}
