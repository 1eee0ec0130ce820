/** Failure-carrying wrappers shared by every module of the vault model. */
module Base {

  /** A value that may be absent (Python's `Optional`). */
  datatype Option<T> = None | Some(value: T)

  /** The outcome of an operation that either returns a value or raises a typed error. */
  datatype Result<T, E> = Ok(value: T) | Err(error: E)
}
