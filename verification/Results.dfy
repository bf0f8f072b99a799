/** Failure-compatible datatypes used in place of Rust's `Option` and `Result`. */
module Results {

  datatype Option<+T> = None | Some(value: T) {

    /** Rust's `ok_or`: a missing value becomes the given error. */
    function OkOr<E>(error: E): Result<T, E> {
      match this
      case Some(v) => Ok(v)
      case None => Err(error)
    }
  }

  datatype Result<+T, +E> = Ok(value: T) | Err(error: E) {

    predicate IsFailure() {
      Err?
    }

    function PropagateFailure<U>(): Result<U, E>
      requires Err?
    {
      Err(error)
    }

    function Extract(): T
      requires Ok?
    {
      value
    }

    /** Rust's `map_err`. */
    function MapErr<F>(convert: E -> F): Result<T, F> {
      match this
      case Ok(v) => Ok(v)
      case Err(e) => Err(convert(e))
    }
  }
}
