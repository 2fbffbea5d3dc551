/** Failure-compatible wrappers shared by the model: a JavaScript `null`/`undefined`
    becomes `None`, a thrown exception or rejected promise becomes `Err`/`Fail`. */
module Results {

  /** A value that may be absent (`T | null`, or an optional property). */
  datatype Option<+T> = None | Some(value: T) {

    /** The value, or `default` when absent. */
    function GetOr(default: T): T {
      match this
      case Some(v) => v
      case None => default
    }
  }

  /** The outcome of an operation that either returns a value or throws. */
  datatype Result<+T, +E> = Ok(value: T) | Err(error: E) {

    predicate IsFailure() {
      Err?
    }

    function PropagateFailure<U>(): Result<U, E>
      requires Err?
    {
      Err(error)
    }

    function Extract(): T
      requires Ok?
    {
      value
    }
  }

  /** The outcome of an operation that returns nothing (`Promise<void>`) or throws. */
  datatype Outcome<+E> = Pass | Fail(error: E)
}
