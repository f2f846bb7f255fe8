/** The optional value and the result type used across the model: Python's
    `None` or a value, and a value or the error an operation raised. */
module Wrappers {

  datatype Option<+T> = None | Some(value: T)

  datatype Result<+R, +E> = Success(value: R) | Failure(error: E)
}
