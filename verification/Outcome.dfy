/** The two result types every component shares. */
module Outcome {

  datatype Option<+T> = None | Some(value: T)

  /** A computed value, or a refusal (the source raises its own error type). */
  datatype Result<+T> = Ok(value: T) | Refused {
    predicate IsFailure() {
      Refused?
    }

    function PropagateFailure<U>(): Result<U>
      requires Refused?
    {
      Refused
    }

    function Extract(): T
      requires Ok?
    {
      value
    }
  }

  /** `:- Check(c)` refuses unless `c` holds. */
  function Check(condition: bool): Result<()> {
    if condition then Ok(()) else Refused
  }
}
