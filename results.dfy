/** Failure-compatible wrappers shared by the other modules. */
module Results {

  datatype Option<T> = None | Some(value: T)

  datatype Result<T, E> = Ok(value: T) | Err(error: E)

  /** An operation that returns nothing but may throw. */
  datatype Outcome<E> = Pass | Fail(error: E)
}
