/** Outcome types shared by the two correlators and the evaluation harness. */
module Outcomes {

  /** A value that may be absent: a frame read that failed, a pattern that did not match. */
  datatype Option<+T> = None | Some(value: T)

  /** A computed value, or the error that stopped the computation (the source raises there). */
  datatype Result<+T, +E> = Ok(value: T) | Err(error: E) {
    predicate IsFailure() {
      Err?
    }

    function PropagateFailure<U>(): Result<U, E>
      requires Err?
    {
      Err(error)
    }

    function Extract(): T
      requires Ok?
    {
      value
    }
  }

  /** A located clip: start and end time, in seconds, within the full video. */
  datatype Interval = Interval(startTime: real, endTime: real)
}
