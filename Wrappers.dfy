/** Failure-carrying results, used where the source throws. */
module Wrappers {

  /** An optional value; `None` stands for a style property that is unset. */
  datatype Option<+T> = None | Some(value: T)

  /** Either a value or the error the source would have thrown. */
  datatype Result<+T, +E> = Success(value: T) | Failure(error: E) {
    predicate IsFailure() {
      Failure?
    }
  }
}
