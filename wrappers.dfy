/** Optional values and results of computations that may throw. */
module Wrappers {

  /** A value that may be absent: JSON `null`/`undefined` or a missing row. */
  datatype Option<+T> = None | Some(value: T)

  /** A computation that either produced a value or threw an error with a message. */
  datatype Result<+T> = Success(value: T) | Failure(error: string)
}
