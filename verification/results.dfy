/** Optional values and success/failure results, used in place of Python's
    `None` and of exceptions that abort an operation. */
module Results {

  datatype Option<+T> = None | Some(value: T)

  datatype Result<+R, +E> = Success(value: R) | Failure(error: E)
}
