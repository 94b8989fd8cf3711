/** Optional values, and results that carry the reason for a refusal. */
module Results {

  datatype Option<+T> = None | Some(value: T)

  /** A failure-compatible result: an `Err` stands for an exception the source raises. */
  datatype Result<+T, +E> = Ok(value: T) | Err(error: E) {
    predicate IsFailure() {
      Err?
    }

    function PropagateFailure<U>(): Result<U, E>
      requires Err?
    {
      Err(error)
    }

    function Extract(): T
      requires Ok?
    {
      value
    }
  }
}
