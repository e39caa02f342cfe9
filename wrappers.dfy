/** Option and Result: absence and failure as values, in place of nil pointers, Go errors
    and Python exceptions. */
module Wrappers {

  datatype Option<+T> = None | Some(value: T)

  datatype Result<+R, +E> = Success(value: R) | Failure(error: E)
}
