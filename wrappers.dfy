/** Option and Result, the two failure-carrying shapes the model needs:
    `undefined`/`null` become `None`, a thrown error becomes `Failure`. */
module Wrappers {

  datatype Option<+T> = None | Some(value: T) {
    predicate IsFailure() { None? }

    function PropagateFailure<U>(): Option<U>
      requires None?
    {
      None
    }

    function Extract(): T
      requires Some?
    {
      value
    }

    function GetOr(default: T): T {
      if Some? then value else default
    }
  }

  datatype Result<+R, +E> = Success(value: R) | Failure(error: E)
}
