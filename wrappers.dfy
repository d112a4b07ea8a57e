/** Failure-compatible wrappers used across the model: Option stands for a Java
    reference that may be null, Result for a call that may throw. */
module Wrappers {

  datatype Option<+T> = None | Some(value: T)

  datatype Result<+T, +E> = Success(value: T) | Failure(error: E)
}
