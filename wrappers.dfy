/** Option and Result: the success/failure values that stand in for Python's
    ValueError / OverflowError and for a missing dictionary key. */
module Wrappers {

  datatype Option<+T> = None | Some(value: T)

  datatype Result<+R, +E> = Success(value: R) | Failure(error: E)
}
