/** Wrappers used across the model: an optional value and
    a success-or-error result standing in for a JavaScript exception. */
module Wrappers {

  datatype Option<+T> = None | Some(value: T)

  datatype Result<+T, +E> = Success(value: T) | Failure(error: E)
}
