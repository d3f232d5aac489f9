/** Absent-or-present values and success-or-failure results, used by every module. */
module Wrappers {

  /** A value that may be missing (JavaScript `undefined`/`null`). */
  datatype Option<+T> = None | Some(value: T)

  /** The outcome of an operation that either returns a value or throws an error. */
  datatype Result<+T, +E> = Ok(value: T) | Err(error: E)
}
