/** Failure-compatible wrappers shared by every module of the model.
    `Option` stands for Python's `None`-or-value; `Result` for a call that
    either returns or raises one of the exceptions the source lets escape. */
module Wrappers {

  datatype Option<+T> = None | Some(value: T) {

    /** The value, or `default` when there is none. */
    function GetOr(default: T): T {
      match this
      case Some(v) => v
      case None => default
    }
  }

  /** The Python exceptions that the modelled code raises or lets escape. */
  datatype PyError =
    | KeyError(key: string)
    | IndexError
    | TypeError
    | AttributeError
    | ValueError
    | ImportError(moduleName: string)
    | Raised(message: string)

  datatype Result<+T> = Success(value: T) | Failure(error: PyError) {

    predicate IsFailure() {
      Failure?
    }

    function PropagateFailure<U>(): Result<U>
      requires Failure?
    {
      Failure(error)
    }

    function Extract(): T
      requires Success?
    {
      value
    }
  }
}
