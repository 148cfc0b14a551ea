/** Option and Result: Python's `None` and raised exceptions, made explicit. */
module Results {

  /** A value that may be absent, as a Python attribute that may hold `None`. */
  datatype Option<+T> = None | Some(value: T)

  /** The outcome of an operation that may raise: a value, or the error raised. */
  datatype Result<+R, +E> = Success(value: R) | Failure(error: E)
}
