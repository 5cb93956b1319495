/** Option and Result, used for Go's nil-able fields and (value, error) returns. */
module Prelude {
  datatype Option<+T> = None | Some(value: T)

  datatype Result<+T, +E> = Ok(value: T) | Err(error: E)
}
