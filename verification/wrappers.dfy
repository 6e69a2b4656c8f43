/** Failure-carrying result of an operation: Go's `(value, error)` pair, with
    exactly one of the two present. */
module Wrappers {

  datatype Result<+R, +E> = Success(value: R) | Failure(error: E)
}
