/** Failure-compatible result types used for the decoder's error paths. */
module Wrappers {

  datatype Option<+T> = None | Some(value: T)

  /** Either a value or the exception the Python code would raise instead. */
  datatype Result<+T, +E> = Ok(value: T) | Err(error: E) {

    predicate IsFailure() {
      Err?
    }

    function PropagateFailure<U>(): Result<U, E>
      requires Err?
    {
      Err(error)
    }

    function Extract(): T
      requires Ok?
    {
      value
    }
  }
}
