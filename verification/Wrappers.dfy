/** The two wrapper types the other modules share. */
module Wrappers {

  /** A Go pointer that may be nil, or the comma-ok result of a lookup. */
  datatype Option<+T> = None | Some(value: T)

  /** A Go `(value, error)` pair of which exactly one half is meaningful. */
  datatype Result<+T, +E> = Ok(value: T) | Err(error: E)
}
