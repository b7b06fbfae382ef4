/** Option and Result, the two failure-compatible wrappers the model uses for
    the error exits of the original program. */
module Wrappers {

  datatype Option<+T> = None | Some(value: T)

  /** Success carries a value; Failure carries the reason the program would
      have stopped with a non-zero exit status. */
  datatype Result<+R, +E> = Success(value: R) | Failure(error: E) {

    predicate IsFailure() {
      Failure?
    }

    function PropagateFailure<U>(): Result<U, E>
      requires Failure?
    {
      Failure(error)
    }

    function Extract(): R
      requires Success?
    {
      value
    }
  }
}
