/** Results of operations that may fail. */
module Outcomes {

  datatype Option<+T> = None | Some(value: T) {
    predicate IsFailure() { None? }

    function PropagateFailure<U>(): Option<U>
      requires None?
    {
      None
    }

    function Extract(): T
      requires Some?
    {
      value
    }
  }

  /** How a handler, or the chain of handlers, ended: nil, an error, or a panic. */
  datatype Verdict = Ok | Err | Panic
}
