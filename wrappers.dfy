/** Option, and Result with the members that let `:-` propagate a failure. */
module Wrappers {

  datatype Option<+T> = None | Some(value: T)

  /** A value, or the exception the modelled Python code would raise instead. */
  datatype Result<+R, +E> = Success(value: R) | Failure(error: E) {
    predicate IsFailure() { Failure? }

    function PropagateFailure<U>(): Result<U, E>
      requires Failure?
    {
      Failure(error)
    }

    function Extract(): R
      requires Success?
    {
      value
    }
  }
}
