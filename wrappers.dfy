/** Optional values and results with an error, the shapes the service's
    nullable fields and thrown errors take in this model. */
module Wrappers {

  /** A value that may be absent; stands for a JavaScript `T | null`. */
  datatype Option<+T> = None | Some(value: T) {

    /** This value if present, otherwise `other` (JavaScript's `a || b` on
        values that are never falsy when present). */
    function OrElse(other: Option<T>): Option<T> {
      if Some? then this else other
    }
  }

  /** The outcome of an operation that either returns a value or throws an
      error carrying a message. */
  datatype Result<+R, +E> = Success(value: R) | Failure(error: E)
}
