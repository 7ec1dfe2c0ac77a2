/** Optional values and results with an error, as used throughout the model. */
module Wrappers {

  /** A value that may be Python's None. */
  datatype Option<+T> = None | Some(value: T)

  /** The outcome of an operation that may raise. */
  datatype Result<+R, +E> = Success(value: R) | Failure(error: E)

  /**
   * An attribute of a Python object: either assigned by the constructor or
   * left at the class default. This is not the same as an attribute that was
   * assigned None, which is `Set(None)` on an `Attr<Option<T>>`.
   */
  datatype Attr<+T> = Unset | Set(value: T)
}
