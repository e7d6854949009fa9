/** Failure-carrying results used throughout the model: `Option` for a value that
    may be absent, `Result` for an operation that either yields a value or an
    error message (the source's `td::Result` / `td::Status`). Both work with `:-`. */
module Wrappers {

  datatype Option<+T> = None | Some(value: T) {
    predicate IsFailure() {
      None?
    }

    function PropagateFailure<U>(): Option<U>
      requires None?
    {
      None
    }

    function Extract(): T
      requires Some?
    {
      value
    }

    /** A missing value becomes the given error message. */
    function ToResult(error: string): Result<T>
    {
      match this
      case Some(v) => Ok(v)
      case None => Err(error)
    }
  }

  /** An error is its human-readable message, as the source's `Status` renders it. */
  datatype Result<+T> = Ok(value: T) | Err(error: string) {
    predicate IsFailure() {
      Err?
    }

    function PropagateFailure<U>(): Result<U>
      requires Err?
    {
      Err(error)
    }

    function Extract(): T
      requires Ok?
    {
      value
    }

    /** The source's `move_as_error_prefix` and `PSTRING() << prefix << status`. */
    function Prefix(prefix: string): (r: Result<T>)
      ensures Ok? ==> r == this
      ensures Err? ==> r.Err? && r.error == prefix + error
    {
      match this
      case Ok(v) => Ok(v)
      case Err(e) => Err(prefix + e)
    }

    /** Forgets the error message. */
    function ToOption(): Option<T>
    {
      match this
      case Ok(v) => Some(v)
      case Err(_) => None
    }
  }
}
