/** Option and Result values: the model's stand-ins for JavaScript's `null`
    and for a thrown `Error`. */
module Wrappers {

  datatype Option<+T> = None | Some(value: T)

  datatype Result<+T, +E> = Ok(value: T) | Err(error: E)
}
