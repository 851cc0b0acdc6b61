/** Failure-carrying values used where the modelled Java code throws or returns nothing. */
module Results {

  /** A value that may be absent. */
  datatype Option<+T> = None | Some(value: T)

  /** Either a value or the error that the Java code would have thrown instead. */
  datatype Result<+T, +E> = Ok(value: T) | Err(error: E)
}
