/** Optional values and the two shapes of error return the Go code uses. */
module Outcomes {

  /** A value that may be absent (a nil reference, a missing entry). */
  datatype Option<+T> = None | Some(value: T)

  /** A Go `error` return: nil (`Pass`) or an error with its message. */
  datatype Outcome = Pass | Fail(error: string)

  /** A Go `(value, error)` return where the value only matters on success. */
  datatype Result<+T> = Ok(value: T) | Err(error: string)
}
