/** Optional values and failures, and the ways the backend can fail. */
module Wrappers {

  datatype Option<+T> = None | Some(value: T)

  /** Why a pass gave up: an operand name that resolves to nothing, an input the
      program throws on, or a form that is outside this model. */
  datatype Error = NotFound | Rejected | Unmodelled

  datatype Result<+T> = Ok(value: T) | Err(error: Error) {
    predicate IsFailure() {
      Err?
    }

    function PropagateFailure<U>(): Result<U>
      requires Err?
    {
      Err(error)
    }

    function Extract(): T
      requires Ok?
    {
      value
    }
  }
}
