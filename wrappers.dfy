/** Option and Result, the shapes every model module uses for values that may
    be missing and for operations that raise in the original program. */
module Wrappers {

  datatype Option<+T> = None | Some(value: T)

  datatype Result<+R, +E> = Ok(value: R) | Err(error: E)
}
