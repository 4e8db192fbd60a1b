/** Failure-carrying results, used wherever the Java code throws. */
module Wrappers {

  datatype Option<+T> = None | Some(value: T)

  datatype Result<+T, +E> = Ok(value: T) | Err(error: E) {
    predicate IsFailure() { Err? }

    function PropagateFailure<U>(): Result<U, E>
      requires Err?
    {
      Err(error)
    }

    function Extract(): T
      requires Ok?
    {
      value
    }
  }

  /** The exceptions the modelled Java code can raise. */
  datatype Failure =
    | InvalidRepresentation(voice: char, pitch: int, low: int, high: int)
    | IndexOutOfBounds
    | IllegalArgument
    | UnexpectedVoiceLabel
    | DimensionMismatch
}
