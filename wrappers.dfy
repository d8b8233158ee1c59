/** Option and Result, shared by the modules of this project. */
module Wrappers {

  datatype Option<+T> = None | Some(value: T)

  /** A value, or the message of the exception the source raises instead. */
  datatype Result<+T> = Success(value: T) | Failure(error: string)
}
