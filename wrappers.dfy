/** Optional values and failure-carrying results shared by every module. */
module Wrappers {

  /** A value that may be absent (Python's `None`). */
  datatype Option<+T> = None | Some(value: T)

  /** The outcome of a step that may raise: its value, or the text of the exception. */
  datatype Result<+T> = Success(value: T) | Failure(error: string)
}
