/** Failure-carrying values used throughout the model: Rust's Option and Result. */
module Results {

  /** Rust's Option<T>. */
  datatype Option<+T> = None | Some(value: T)

  /** Rust's Result<T, E>. */
  datatype Result<+T, +E> = Ok(value: T) | Err(error: E)

  /** Rust's Result<(), E>: success carries nothing. */
  datatype Outcome<+E> = Pass | Fail(error: E)
}
