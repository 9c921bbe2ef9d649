/** Option and Result values used in place of C#'s `null` and thrown exceptions. */
module Wrappers {

  /** A value that may be absent: `null` in the source, `None` here. */
  datatype Option<+T> = None | Some(value: T)

  /** The exception LINQ raises when `Max` or `Average` meets an empty sequence. */
  datatype Error = InvalidOperation

  /** A computed value, or the exception the computation throws. */
  datatype Result<+T> = Success(value: T) | Failure(error: Error)
}
