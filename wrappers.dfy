/** Option and Result values standing in for Go's nil pointers and (value, error) pairs. */
module Wrappers {

  datatype Option<+T> = None | Some(value: T)

  /** A Go `(T, error)` return: `Ok(v)` when the error is nil, `Err(message)` otherwise. */
  datatype Result<+T> = Ok(value: T) | Err(error: string)
}
