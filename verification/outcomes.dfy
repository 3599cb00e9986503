/** Failure-carrying results shared by every layer of the ingestion model.
    `Failure` names the exceptions the Python code lets escape: database
    integrity and data errors, the keyword error raised by a model constructor,
    and the `ValueError` of the application manager. */
module Outcomes {

  datatype Option<+T> = None | Some(value: T)

  /** The exception a storage call or a manager call raises. `column` names
      the offending column of the table. */
  datatype Failure =
    | UniqueViolation(column: string)
    | ForeignKeyViolation(column: string)
    | NotNullViolation(column: string)
    | ValueTooLong(column: string)
    | UnexpectedKeyword(names: set<string>)
    | ValueError(message: string)

  datatype Result<+T> = Ok(value: T) | Err(failure: Failure) {
    predicate IsFailure() { Err? }

    function PropagateFailure<U>(): Result<U>
      requires Err?
    {
      Err(failure)
    }

    function Extract(): T
      requires Ok?
    {
      value
    }
  }
}
