/** Optional values and Python exceptions that escape an operation. */
module Wrappers {

  datatype Option<+T> = None | Some(value: T)

  /** The outcome of a Python call that may raise: `Failure` names the exception that escapes. */
  datatype Result<+T> = Success(value: T) | Failure(error: string)
}
