/** Option and Result, the failure-carrying values the model returns where the
    source returns `Option`, `Result`, `null` or throws. */
module Wrappers {

  datatype Option<+T> = None | Some(value: T) {
    function GetOr(default: T): T {
      match this
      case Some(v) => v
      case None => default
    }

    /** `a.or(b)`: the first of the two that is present. */
    function Or(other: Option<T>): Option<T> {
      if Some? then this else other
    }
  }

  datatype Result<+R, +E> = Ok(value: R) | Err(error: E) {
    predicate IsFailure() {
      Err?
    }

    function PropagateFailure<U>(): Result<U, E>
      requires Err?
    {
      Err(error)
    }

    function Extract(): R
      requires Ok?
    {
      value
    }
  }

  function OkOr<T, E>(o: Option<T>, e: E): Result<T, E> {
    match o
    case Some(v) => Ok(v)
    case None => Err(e)
  }
}
