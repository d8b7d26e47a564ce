/** Failure-compatible wrappers shared by the whole model. */
module Wrappers {

  /** An optional value: `None` stands for JavaScript's `undefined` / `null` where the source tests `x != null`. */
  datatype Option<+T> = None | Some(value: T)

  /** Either a value or the error that a JavaScript `throw` would have raised. */
  datatype Result<+T, +E> = Ok(value: T) | Err(error: E) {

    predicate IsFailure() {
      Err?
    }

    function PropagateFailure<U>(): Result<U, E>
      requires Err?
    {
      Err(error)
    }

    function Extract(): T
      requires Ok?
    {
      value
    }
  }

  /** A check that either passes or fails with an error. */
  datatype Outcome<+E> = Pass | Fail(error: E)
}
