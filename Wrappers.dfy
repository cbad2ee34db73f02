/** Option and Result values used for the error paths of the model. */
module Wrappers {

  datatype Option<T> = None | Some(value: T)

  /** `Err` stands for a Python exception that escapes the operation. */
  datatype Result<T, E> = Ok(value: T) | Err(error: E)
}
