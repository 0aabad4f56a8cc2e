/** Failure-carrying datatypes used across the model in place of null
    pointers and C++ exceptions. */
module Wrappers {

  /** A value that may be absent; `None` stands for a NULL pointer. */
  datatype Option<+T> = None | Some(value: T)

  /** A value or the error the source reports by `throw`. */
  datatype Result<+T, +E> = Success(value: T) | Failure(error: E)
}
