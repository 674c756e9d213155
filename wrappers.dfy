/** Option and Result values used for Go's nil pointers and (value, error) returns. */
module Wrappers {

  datatype Option<+T> = None | Some(value: T)

  datatype Result<+T, +E> = Ok(value: T) | Err(error: E)

  /** Bytes of files and objects. */
  type byte = x: int | 0 <= x < 256
}
