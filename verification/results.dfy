/** Failure-carrying datatypes used in place of Python's `None` and raised exceptions. */
module Results {

  /** A value that may be absent (Python's `Optional[T]`, with `None` as `Nothing`). */
  datatype Option<+T> = Nothing | Some(value: T) {
    function GetOr(default: T): T {
      match this
      case Some(v) => v
      case Nothing => default
    }
  }

  /** Either a value or the text of the exception that replaced it. */
  datatype Result<+T, +E> = Ok(value: T) | Err(error: E)
}
