/** Optional values and results, used by every other module. */
module Outcomes {

  datatype Option<+T> = None | Some(value: T)

  /** `Ok` carries the value of a call that returned, `Err` the error it raised. */
  datatype Result<+T, +E> = Ok(value: T) | Err(error: E) {

    predicate IsFailure() {
      Err?
    }

    function PropagateFailure<U>(): Result<U, E>
      requires Err?
    {
      Err(error)
    }

    function Extract(): T
      requires Ok?
    {
      value
    }
  }
}
