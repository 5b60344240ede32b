/** Failure-compatible wrappers used throughout the model: an optional value
    and a result that is either a value or an error. */
module Wrappers {

  datatype Option<+T> = None | Some(value: T) {
    function GetOr(default: T): T {
      match this
      case Some(v) => v
      case None => default
    }
  }

  datatype Result<+T, +E> = Ok(value: T) | Err(error: E) {
    predicate IsFailure() {
      Err?
    }

    function PropagateFailure<U>(): Result<U, E>
      requires Err?
    {
      Err(error)
    }

    function Extract(): T
      requires Ok?
    {
      value
    }
  }
}

/** The exceptions the optimizer can raise, as values. */
module Errors {

  datatype Error =
    | MissingAssumption(key: string)   // `need` raising KeyError
    | MissingLifetime(key: string)     // `get_lifetime` with neither the key nor "Project life"
    | ZeroDivision                     // the CRF denominator (1 + wacc)^life - 1 is zero
    | EmptyHorizon                     // `.iloc[0]` on an hourly table without rows
}
