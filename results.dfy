/** Tagged outcomes used across the service in place of exceptions. */
module Results {

  /** A value that may be absent (`undefined` in the source). */
  datatype Option<+T> = None | Some(value: T)

  /** `successFrom(value)` / `failureFrom(error)`; `isSuccess` is `Success?`. */
  datatype Result<+T, +E> = Success(value: T) | Failure(error: E)
}
