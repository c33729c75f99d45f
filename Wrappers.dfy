/** Failure-carrying datatypes shared by every module: Go's `(T, error)` pairs and nil pointers. */
module Wrappers {

  /** A value that may be absent, as a Go pointer that may be nil. */
  datatype Option<+T> = None | Some(value: T)

  /** Either a value or an error, as Go's `(T, error)` return pairs. */
  datatype Result<+T, +E> = Ok(value: T) | Err(error: E)
}
