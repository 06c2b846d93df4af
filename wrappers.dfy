/** Failure-carrying results used for the exceptions the modelled code throws. */
module Wrappers {

  /** A value, or the error an operation raised instead of returning. */
  datatype Result<+T, +E> = Ok(value: T) | Err(error: E) {
    predicate IsFailure() { Err? }

    function PropagateFailure<U>(): Result<U, E>
      requires Err?
    {
      Err(error)
    }

    function Extract(): T
      requires Ok?
    {
      value
    }
  }

  /** The outcome of an operation that returns nothing (a C# `void` method that may throw). */
  datatype Outcome<+E> = Pass | Fail(error: E)

  /** A possibly absent value; `None` stands for a C# `null`. */
  datatype Option<+T> = None | Some(value: T)
}
