/** Failure-compatible wrappers used across the wizard model. */
module Results {

  /** A value that may be absent: an optional manifest block or a parse that failed. */
  datatype Option<+T> = None | Some(value: T)

  /** Either a value, or the reason the wizard stopped (no file is written). */
  datatype Result<+T, +E> = Ok(value: T) | Abort(error: E) {

    predicate IsFailure() {
      Abort?
    }

    function PropagateFailure<U>(): Result<U, E>
      requires Abort?
    {
      Abort(error)
    }

    function Extract(): T
      requires Ok?
    {
      value
    }
  }
}
