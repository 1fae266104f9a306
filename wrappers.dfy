/** Failure-carrying results: the C# engine reports its errors by throwing,
    the model returns one of these instead. */
module Wrappers {

  datatype Option<+T> = None | Some(value: T)

  /** A value, or the exception that would have been thrown instead. */
  datatype Result<+R, +E> = Success(value: R) | Failure(error: E) {
    predicate IsFailure() {
      Failure?
    }

    function PropagateFailure<U>(): Result<U, E>
      requires Failure?
    {
      Failure(error)
    }

    function Extract(): R
      requires Success?
    {
      value
    }
  }

  /** Normal completion, or the exception that would have been thrown. */
  datatype Outcome<+E> = Pass | Fail(error: E)
}
