/** Optional values and computations that may raise. */
module Wrappers {

  datatype Option<+T> = None | Some(value: T)

  /** `Failure` stands for the exception a call leaves with. */
  datatype Result<+T, +E> = Success(value: T) | Failure(error: E) {
    predicate IsFailure() {
      Failure?
    }

    function PropagateFailure<U>(): Result<U, E>
      requires Failure?
    {
      Failure(error)
    }

    function Extract(): T
      requires Success?
    {
      value
    }
  }
}
