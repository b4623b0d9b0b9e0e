/** Optional values and results with an error, as returned by the model's operations. */
module Outcome {

  /** A value that may be missing (a Java reference that may be null). */
  datatype Option<+T> = None | Some(value: T)

  /** Either a value or the error that ended the computation (a thrown exception). */
  datatype Result<+T, +E> = Ok(value: T) | Err(error: E)
}
