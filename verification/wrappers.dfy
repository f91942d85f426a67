/** Option and Result, the stand-ins for Python's None / raised exceptions
    and for C#'s null returns. */
module Wrappers {

  datatype Option<+T> = None | Some(value: T)

  datatype Result<+T, +E> = Ok(value: T) | Err(error: E)
}
