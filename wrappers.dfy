/** Optional values and results with an error, used for missing cells and for the
    failures the data-preparation pipeline raises. */
module Wrappers {

  /** A cell that may be missing (pandas NaN). */
  datatype Option<+T> = None | Some(value: T)

  /** A value or the error that was raised instead; usable with `:-`. */
  datatype Result<+T, +E> = Success(value: T) | Failure(error: E) {

    predicate IsFailure() {
      Failure?
    }

    function PropagateFailure<U>(): Result<U, E>
      requires Failure?
    {
      Failure(error)
    }

    function Extract(): T
      requires Success?
    {
      value
    }
  }
}
