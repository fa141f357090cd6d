/** Failure-carrying values shared by the whole model. */
module Wrappers {

  /** A value that may be absent (a Go `ok` flag, a nil pointer, an absent header). */
  datatype Option<+T> = None | Some(value: T)

  /** A value or an error message (a Go `(value, error)` pair). */
  datatype Result<+T> = Ok(value: T) | Err(error: string)
}
