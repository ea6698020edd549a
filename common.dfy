/** Values shared by every module: optional values standing for nullable
    references, results standing for operations that may throw, and bytes. */
module Common {

  /** A nullable reference or a nullable value type. */
  datatype Option<+T> = None | Some(value: T)

  /** The result of an operation that either produces a value or throws. */
  datatype Result<+T, +E> = Success(value: T) | Failure(error: E)

  /** The result of an operation that produces nothing or throws. */
  datatype Outcome<+E> = Pass | Fail(error: E)

  /** An unsigned 8-bit value, as in the byte[] bodies of envelopes. */
  newtype byte = x: int | 0 <= x < 256
}
