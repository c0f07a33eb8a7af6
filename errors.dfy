/** The three Python exception kinds the contact book raises and catches,
    and the result types the model uses in place of raising them. */
module Errors {

  /** The exceptions that reach the command boundary. */
  datatype PyError = ValueError | KeyError | IndexError

  datatype Option<+T> = None | Some(value: T)

  /** A computation that either yields a value or raises one of the exceptions. */
  datatype Result<+T> = Ok(value: T) | Err(error: PyError) {
    predicate IsFailure() { Err? }

    function PropagateFailure<U>(): Result<U>
      requires Err?
    {
      Err(error)
    }

    function Extract(): T
      requires Ok?
    {
      value
    }
  }

  /** A statement that either completes or raises. */
  datatype Outcome = Done | Raised(error: PyError)
}
