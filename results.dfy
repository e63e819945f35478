/** Success/failure values for the operations of both scripts that can fail. */
module Results {

  datatype Option<+T> = None | Some(value: T)

  /** An operation that yields a value or an error. */
  datatype Result<+T, +E> = Success(value: T) | Failure(error: E)

  /** An operation that yields no value, only whether it went through. */
  datatype Outcome<+E> = Pass | Fail(error: E)
}
