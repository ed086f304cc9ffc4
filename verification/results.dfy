/** Optional values and success/failure results used throughout the model. */
module Results {

  /** A value that may be absent; the model's counterpart of Python's `None`. */
  datatype Option<+T> = None | Some(value: T)

  /** The outcome of an operation that either produces a value or fails with an error. */
  datatype Result<+R, +E> = Success(value: R) | Failure(error: E)
}
