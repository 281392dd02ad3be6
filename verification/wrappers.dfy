/** Failure-carrying values: the model's stand-in for Python exceptions and
    optional values. */
module Wrappers {

  /** A value that may be absent (Python's `None`). */
  datatype Option<+T> = None | Some(value: T)

  /** Either a value or the error the Python code would raise instead. */
  datatype Result<+T, +E> = Success(value: T) | Failure(error: E) {

    /** Whether this is an error, as the `:-` operator asks. */
    predicate IsFailure() {
      Failure?
    }

    /** Re-types a Failure so that it can be returned with `:-`. */
    function PropagateFailure<U>(): Result<U, E>
      requires Failure?
    {
      Failure(error)
    }

    /** The value of a success, for the `:-` operator. */
    function Extract(): T
      requires Success?
    {
      value
    }
  }
}
