/** Option and Result values shared by the modules of this project. */
module Wrappers {

  datatype Option<+T> = None | Some(value: T)

  /** The outcome of an operation that the source may abort with an exception or a panic. */
  datatype Result<+T, +E> = Ok(value: T) | Err(error: E)
}
