/** The two result types the modules share. */
module Wrappers {

  datatype Option<+T> = None | Some(value: T)

  /** What a source method that may raise hands back: a value, or the exception it raised. */
  datatype Outcome<+T, +E> = Ok(value: T) | Raise(error: E) {
    predicate IsFailure() { Raise? }

    function PropagateFailure<U>(): Outcome<U, E>
      requires Raise?
    {
      Raise(error)
    }

    function Extract(): T
      requires Ok?
    {
      value
    }
  }
}
