/** Optional values, results and the Python exceptions the modelled code raises. */
module Wrappers {

  datatype Option<+T> = None | Some(value: T)

  /** The exceptions raised by the modelled code, each with the datum that identifies it. */
  datatype Error =
    | KeyError(key: string)
    | ValueError(reason: string)
    | IndexError(index: int)
    | TypeError(reason: string)
    | RuntimeError(detail: string)
    | AssertionError(reason: string)
    | ZeroDivisionError
    | FileNotFoundError(path: string)

  /** A value, or the exception that was raised instead; usable with `:-`. */
  datatype Result<+T> = Ok(value: T) | Err(error: Error) {

    predicate IsFailure() {
      Err?
    }

    function PropagateFailure<U>(): Result<U>
      requires Err?
    {
      Err(error)
    }

    function Extract(): T
      requires Ok?
    {
      value
    }
  }
}
