/** Optional values and the exceptions the modelled Python code raises. */
module Outcomes {

  /** An optional value: `None` stands for Python's `None`. */
  datatype Option<+T> = None | Some(value: T)

  /** The Python exception classes raised on the modelled error paths. */
  datatype ErrorKind =
    | FileExistsError
    | FileNotFoundError
    | ValueError
    | KeyError
    | IndexError
    | ZeroDivisionError
    | OSError

  datatype Error = Error(kind: ErrorKind, message: string)

  /** Either a value or the exception that was raised instead. */
  datatype Result<+T> = Ok(value: T) | Err(error: Error) {
    predicate IsFailure() { Err? }

    function PropagateFailure<U>(): Result<U>
      requires Err?
    {
      Err(error)
    }

    function Extract(): T
      requires Ok?
    {
      value
    }
  }
}
