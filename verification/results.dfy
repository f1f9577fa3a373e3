/** Optional values and outcomes that carry an error, in place of Java's null and exceptions. */
module Results {

  /** A value that may be absent (a Java reference that may be null, an empty Optional). */
  datatype Option<+T> = None | Some(value: T)

  /** The value of an operation, or the error it raised. */
  datatype Result<+T, +E> = Ok(value: T) | Err(error: E)
}
