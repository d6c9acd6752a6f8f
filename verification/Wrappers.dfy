/** Optional values and the outcome of an operation that may throw. */
module Wrappers {

  /** A value that may be absent: TypeScript's `T | undefined` / `T | null`. */
  datatype Option<+T> = None | Some(value: T)

  /**
   * The outcome of an operation that either returns a value or throws an
   * `Error`; only the error's message is observable to the callers modelled
   * here.
   */
  datatype Result<+T> = Ok(value: T) | Err(message: string)
}
