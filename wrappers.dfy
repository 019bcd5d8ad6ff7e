/** Optional values and results with an error, used for Python's `None` and raised exceptions. */
module Wrappers {

  /** `None` stands for Python's `None`; `Some(v)` for any other object. */
  datatype Option<+T> = None | Some(value: T)

  /** The outcome of a call that either returns a value or raises an error with a message. */
  datatype Result<+T> = Success(value: T) | Failure(error: string)
}
