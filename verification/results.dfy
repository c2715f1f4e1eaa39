/** Optional values and outcomes with an error, as the URL replacement model uses them. */
module Results {

  /** A value that may be missing, such as the text content of an element. */
  datatype Option<+T> = None | Some(value: T)

  /** The outcome of an operation that either computes a value or reports an error. */
  datatype Result<+T, +E> = Ok(value: T) | Err(error: E)
}
