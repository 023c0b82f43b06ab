/** Option and Result, the two failure-carrying values used across the model. */
module Wrappers {

  /** A value that may be missing: TypeScript's `T | null` / `T | undefined`. */
  datatype Option<+T> = None | Some(value: T)

  /** The outcome of a promise: resolved with a value or rejected with a reason. */
  datatype Result<+T, +E> = Ok(value: T) | Err(error: E)
}
