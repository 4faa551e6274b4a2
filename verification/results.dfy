/** Optional values and success/failure results shared by the modules of the model. */
module Results {

  /** A value that may be absent: JavaScript's `undefined` / `null` alternatives. */
  datatype Option<+T> = None | Some(value: T)

  /** The outcome of an operation that either returns a value or throws. */
  datatype Result<+T, +E> = Success(value: T) | Failure(error: E) {

    /** Applies `f` to the error of a failure and leaves a success alone. */
    function MapFailure<E2>(f: E -> E2): Result<T, E2>
    {
      match this
      case Success(v) => Success(v)
      case Failure(e) => Failure(f(e))
    }
  }
}
