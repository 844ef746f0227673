/** Option and Result types used for nullable columns and for the failures of the pipeline. */
module Results {

  /** A possibly missing value: `None` is a null cell. */
  datatype Option<+T> = None | Some(value: T) {

    /** The value, or `default` when missing. */
    function GetOr(default: T): T {
      match this
      case Some(v) => v
      case None => default
    }
  }

  /** The outcome of a stage that can fail; usable with `:-`. */
  datatype Result<+T, +E> = Ok(value: T) | Err(error: E) {

    predicate IsFailure() {
      Err?
    }

    function PropagateFailure<U>(): Result<U, E>
      requires Err?
    {
      Err(error)
    }

    function Extract(): T
      requires Ok?
    {
      value
    }
  }
}

/** The ways a cleaning run can fail. */
module Failures {

  datatype Failure =
    /** No branch of the month case analysis applies (month above 12). */
    | NoWindowForMonth(month: int)
    /** Some cell is still null once the five imputed columns are filled. */
    | NullsAfterImputation
    /** A window bound does not read as a calendar date. */
    | UnparsableDate(text: string)
}
