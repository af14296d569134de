/** Option and Result values used where the toolkit returns null or throws. */
module Wrappers {

  /** A value that may be absent (a C# null or a `Nullable<T>` without a value). */
  datatype Option<+T> = None | Some(value: T) {

    /** The value if present, otherwise the fallback (C#'s `??`). */
    function GetOr(fallback: T): T
    {
      match this
      case Some(v) => v
      case None => fallback
    }
  }

  /** Either a value or the exception the toolkit would throw instead. */
  datatype Result<+R, +E> = Success(value: R) | Failure(error: E)
}
