/** Failure-carrying datatypes shared by the whole model. */
module Wrappers {

  /** A value that may be missing (JavaScript `undefined`). */
  datatype Option<+T> = None | Some(value: T) {

    /** Returns the value in Some, or the given default for None. */
    function GetOr(default: T): T {
      match this
      case Some(v) => v
      case None => default
    }
  }

  /** Either a value or an error, the shape of a zod `safeParse` outcome. */
  datatype Result<+R, +E> = Success(value: R) | Failure(error: E)
}
