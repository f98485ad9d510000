/** Failure-carrying datatypes shared by every module of the model.

    `Option` stands for a Python value that may be `None`; `Result` stands
    for a computation that either returns a value or raises, the raised
    exception being recorded by its kind only. */
module Wrappers {

  datatype Option<+T> = None | Some(value: T) {

    /** The wrapped value, or `default` for `None`. */
    function GetOr(default: T): T {
      match this
      case Some(v) => v
      case None => default
    }
  }

  /** The kinds of Python exception the modelled code can run into. */
  datatype Raised =
    | KeyError
    | IndexError
    | ValueError
    | TypeError
    | AttributeError
    | IOError
    | ZeroDivisionError

  datatype Result<+T> = Ok(value: T) | Err(error: Raised) {

    /** True when the computation raised. */
    predicate IsFailure() {
      Err?
    }

    function PropagateFailure<U>(): Result<U>
      requires Err?
    {
      Err(error)
    }

    function Extract(): T
      requires Ok?
    {
      value
    }
  }
}
