/** Failure-compatible wrappers. Kotlin's nullable results become `Option`,
    its thrown exceptions become the `Failure` arm of `Result`. */
module Wrappers {

  datatype Option<+T> = None | Some(value: T) {
    predicate IsFailure() { None? }

    function PropagateFailure<U>(): Option<U>
      requires None?
    {
      None
    }

    function Extract(): T
      requires Some?
    {
      value
    }
  }

  /** The exception classes the modelled code throws. `error(...)` throws
      IllegalState, `require(...)` throws IllegalArgument, `String.toInt()`
      throws NumberFormat, an out-of-range `substring` throws IndexOutOfBounds and
      taking the last element of an empty list throws NoSuchElement and
      `!!` on null throws NullPointer. */
  datatype Exception = IllegalState | IllegalArgument | NumberFormat | IndexOutOfBounds | NoSuchElement | NullPointer

  datatype Result<+T> = Ok(value: T) | Fail(error: Exception) {
    predicate IsFailure() { Fail? }

    function PropagateFailure<U>(): Result<U>
      requires Fail?
    {
      Fail(error)
    }

    function Extract(): T
      requires Ok?
    {
      value
    }
  }
}
