/** Optional values and results with an error message, as the JavaScript code uses
    `null`/`undefined` and thrown `Error` objects. */
module Wrappers {

  datatype Option<+T> = None | Some(value: T)

  /** The outcome of an operation that may throw: the value, or the message of the `Error`. */
  datatype Result<+T> = Success(value: T) | Failure(error: string)
}
