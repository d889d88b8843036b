/** Option and Result, used for the optional identifier of a field and for
    every failure the derives can report (a darling diagnostic or a panic). */
module Wrappers {

  datatype Option<+T> = None | Some(value: T)

  datatype Result<+T, +E> = Ok(value: T) | Err(error: E)
}
