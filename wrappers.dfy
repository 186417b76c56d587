/** Option and Result values used for "row not found" lookups and for the error path of
    every order operation. */
module Wrappers {

  datatype Option<+T> = None | Some(value: T)

  datatype Result<+T, +E> = Ok(value: T) | Err(error: E)
}
