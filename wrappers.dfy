/** Option and Result: the model's replacement for NaN/None values and for
    the exceptions the script uses as control flow. */
module Wrappers {

  datatype Option<+T> = None | Some(value: T)

  datatype Result<+R, +E> = Ok(value: R) | Err(error: E)
}
