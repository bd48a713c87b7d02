/** Optional values and the outcome of an operation that can throw. */
module Wrappers {

  /** `T | null | undefined` in the source. */
  datatype Option<+T> = None | Some(value: T)

  /** A value, or the message of the `Error` an operation threw. */
  datatype Result<+T> = Ok(value: T) | Err(message: string)
}
