/** Optional values and failures, as the JavaScript code expresses them with
    undefined/null and with thrown Error objects. */
module Results {

  /** A value that may be absent (JavaScript's undefined or null). */
  datatype Option<+T> = None | Some(value: T) {

    /** The value, or the given default when absent. */
    function GetOr(default: T): T {
      match this
      case Some(v) => v
      case None => default
    }
  }

  /** The outcome of an operation that may throw; a failure carries the
      thrown Error's message. */
  datatype Result<+T> = Success(value: T) | Failure(error: string)
}
