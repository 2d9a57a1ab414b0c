/** Option and Result, used for C#'s nullable values and for thrown exceptions. */
module Wrappers {

  /** `None` stands for C#'s `null`. */
  datatype Option<+T> = None | Some(value: T)

  /** A computation that either returns a value or throws `error`. */
  datatype Result<+T, +E> = Success(value: T) | Failure(error: E) {

    predicate IsFailure() {
      Failure?
    }

    function PropagateFailure<U>(): Result<U, E>
      requires Failure?
    {
      Failure(error)
    }

    function Extract(): T
      requires Success?
    {
      value
    }
  }
}
