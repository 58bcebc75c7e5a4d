/** Optional values and results shared by the projector and the report engine. */
module Common {

  /** A value that may be missing: a pydantic `Optional` field or a null cell of a frame. */
  datatype Option<+T> = None | Some(value: T) {
    function GetOr(default: T): T {
      match this
      case Some(v) => v
      case None => default
    }
  }

  /** The outcome of an operation that can raise. */
  datatype Result<+T, +E> = Ok(value: T) | Err(error: E)
}
