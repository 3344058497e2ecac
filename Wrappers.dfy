/** Option and Result values for the error returns of the scheduler plugin and its host queries. */
module Wrappers {

  datatype Option<+T> = None | Some(value: T)

  /** A Go `(value, error)` pair: either a value, or an error carrying its message. */
  datatype Result<+T> = Ok(value: T) | Err(error: string)
}
