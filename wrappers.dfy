/** Failure-carrying values. The compiler core signals an internal invariant
    violation (a failed `assert`, a missing dictionary key it checks for) by
    raising; the model returns `Fail` with the diagnostic instead. */
module Wrappers {

  datatype Option<+T> = None | Some(value: T)

  datatype Result<+T> = Ok(value: T) | Fail(msg: string) {
    predicate IsFailure() {
      Fail?
    }

    function PropagateFailure<U>(): Result<U>
      requires Fail?
    {
      Fail(msg)
    }

    function Extract(): T
      requires Ok?
    {
      value
    }
  }

  /** A result that carries no value: `Pass`, or the diagnostic of a failure. */
  datatype Outcome = Pass | Failed(msg: string)
}
