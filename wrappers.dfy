/** Failure-compatible result types shared by every stage of the front end.
    Every stage of the compiler stops at its first error; the model returns
    that error as a value instead of ending the process. */
module Wrappers {

  datatype Option<T> = None | Some(value: T)

  /** A value or the error that stopped the computation. */
  datatype Result<T, E> = Ok(value: T) | Err(error: E) {
    predicate IsFailure() { Err? }

    function PropagateFailure<U>(): Result<U, E>
      requires Err?
    {
      Err(error)
    }

    function Extract(): T
      requires Ok?
    {
      value
    }
  }
}
