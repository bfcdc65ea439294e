/** Option and Result, the failure-carrying values used throughout the model. */
module Wrappers {

  /** `None` stands for C#'s `null`. */
  datatype Option<+T> = None | Some(value: T)

  /** A value or the error that the source reports by an exception or a message box. */
  datatype Result<+T, +E> = Ok(value: T) | Err(error: E)
}
