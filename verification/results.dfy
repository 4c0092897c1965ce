/** Failure-carrying datatypes used throughout the model: `Option` for a value
    that may be absent, `Result` for an operation that may raise. */
module Results {

  datatype Option<+T> = None | Some(value: T)

  /** A Python call that either returns `value` or raises an exception
      whose description is `error`. */
  datatype Result<+T, +E> = Ok(value: T) | Err(error: E) {

    predicate IsFailure() {
      Err?
    }

    function PropagateFailure<U>(): Result<U, E>
      requires Err?
    {
      Err(error)
    }

    function Extract(): T
      requires Ok?
    {
      value
    }

    /** The same outcome with the exception translated by `f`. */
    function MapError<F>(f: E -> F): Result<T, F> {
      match this
      case Ok(v) => Ok(v)
      case Err(e) => Err(f(e))
    }
  }
}
