/**
 * Python exceptions as values, and the result and option types that every
 * fallible operation of the model returns instead of raising.
 */
module Errors {
  /** The exception classes the pipeline raises or catches. */
  datatype Kind =
    | ValueError
    | KeyError
    | TypeError
    | IndexError
    | FileNotFoundError
    | NameError
    | OSError
    | OverflowError
    | DataVisualizationError
    | PathSetupError
    | VisualizationError

  /**
   * An exception message. Messages that embed a Python set keep the set
   * itself, because the order in which Python prints a set of strings is
   * not fixed; messages that embed another exception keep that exception,
   * messages that embed a float keep the number, and messages that embed
   * the `repr` of a string keep the string.
   */
  datatype Message =
    | Plain(text: string)
    | WithSet(prefix: string, items: set<string>)
    | WithList(prefix: string, names: seq<string>)
    | Wrapping(prefix: string, inner: Failure)
    | WithValue(prefix: string, value: real)
    | WithRepr(prefix: string, text: string)

  datatype Failure = Failure(kind: Kind, msg: Message)

  datatype Option<T> = None | Some(value: T)

  datatype Result<T> = Ok(value: T) | Err(error: Failure)
  {
    predicate IsFailure() { Err? }

    function PropagateFailure<U>(): Result<U>
      requires Err?
    {
      Err(error)
    }

    function Extract(): T
      requires Ok?
    {
      value
    }
  }

  /** `raise kind(text)` */
  function Raise<T>(kind: Kind, text: string): Result<T>
  {
    Err(Failure(kind, Plain(text)))
  }
}
