/** The two result shapes used throughout: a Go pointer or map lookup that may be
    missing, and a Go `(value, error)` pair. */
module Wrappers {

  datatype Option<+T> = None | Some(value: T)

  datatype Result<+T, +E> = Ok(value: T) | Err(error: E)
}
