/** Option and Result, the failure-compatible datatypes the decoders return. */
module Wrappers {

  datatype Option<+T> = None | Some(value: T)

  /** The outcome of a throwing Swift initializer: a value, or the error it threw. */
  datatype Result<+T, +E> = Success(value: T) | Failure(error: E) {

    predicate IsFailure() {
      Failure?
    }

    function PropagateFailure<U>(): Result<U, E>
      requires Failure?
    {
      Failure(error)
    }

    function Extract(): T
      requires Success?
    {
      value
    }
  }
}
