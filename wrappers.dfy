/** Option and Result, the stock failure-compatible wrappers the other modules use. */
module Wrappers {

  /** A value that may be missing: Python's `None` where the source allows it. */
  datatype Option<+T> = None | Some(value: T)

  /** Either a value or an error: stands for a Python call that may raise. */
  datatype Result<+T, +E> = Success(value: T) | Failure(error: E) {

    predicate IsFailure() {
      Failure?
    }

    function PropagateFailure<U>(): Result<U, E>
      requires Failure?
    {
      Failure(error)
    }

    function Extract(): T
      requires Success?
    {
      value
    }
  }
}
