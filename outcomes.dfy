/** Optional values and results that carry either a value or an error. */
module Outcomes {

  /** A value that may be absent (Python's None, or a missing key). */
  datatype Option<+T> = None | Some(value: T)

  /** A computation that either produced a value or raised an error. */
  datatype Result<+T, +E> = Success(value: T) | Failure(error: E)
}
