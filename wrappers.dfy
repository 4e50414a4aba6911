/** Option and Result values used wherever the panel's Java code throws or reads an empty field. */
module Wrappers {

  datatype Option<+T> = None | Some(value: T)

  datatype Result<+T, +E> = Success(value: T) | Failure(error: E)
}
