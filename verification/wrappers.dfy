/** Failure-compatible wrappers used throughout the model: an optional value
    (a missing dictionary key) and a result that carries either a value or the
    error the source would raise. */
module Wrappers {

  datatype Option<+T> = None | Some(value: T)

  datatype Result<+R, +E> = Success(value: R) | Failure(error: E)
}
