/** Result types used throughout the model. */
module Wrappers {

  /** An optional value; `None` plays the part of a C `NULL` pointer. */
  datatype Option<+T> = None | Some(value: T)

  /** Either a value or an error. */
  datatype Result<+T, +E> = Success(value: T) | Failure(error: E)
}
