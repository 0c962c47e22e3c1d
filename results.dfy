/** Absent values and failing computations, shared by the other modules. */
module Results {

  /** A value that may be missing: a nullable field of a row, or a nullable state field. */
  datatype Option<T> = None | Some(value: T) {
    /** The value, or `default` when there is none. */
    function GetOr(default: T): T {
      match this
      case Some(v) => v
      case None => default
    }
  }

  /** The outcome of a step that can be refused. */
  datatype Result<T, E> = Success(value: T) | Failure(error: E)
}
