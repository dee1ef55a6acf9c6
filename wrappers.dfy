/** Null-like and failure-carrying values shared by the storage and event modules. */
module Wrappers {

  /** A value that may be absent: JavaScript's `T | null`. */
  datatype Option<+T> = None | Some(value: T)

  /** The completion of an operation that returns nothing on success and
      throws `error` otherwise. */
  datatype Outcome<+E> = Pass | Fail(error: E)

  /** The completion of an operation that returns a `T` or throws an `E`. */
  datatype Result<+T, +E> = Ok(value: T) | Err(error: E)
}
