/** Option and Result, used for Java's nullable values and thrown exceptions. */
module Options {

  datatype Option<+T> = None | Some(value: T)

  /** A value, or the exception the Java code throws instead of returning one. */
  datatype Result<+T, +E> = Ok(value: T) | Err(error: E)
}
