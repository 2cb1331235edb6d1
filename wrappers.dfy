/** Kotlin's nullable values and thrown exceptions, as datatypes. */
module Wrappers {

  /** A nullable value: `T?` in Kotlin. */
  datatype Option<+T> = None | Some(value: T) {

    /** Kotlin's elvis operator `this ?: default`. */
    function GetOr(default: T): T {
      match this
      case Some(v) => v
      case None => default
    }

    /** The list holding the value, if any (`listOfNotNull(this)`). */
    function ToSeq(): (s: seq<T>)
      ensures |s| <= 1
      ensures Some? ==> s == [value]
      ensures None? ==> s == []
    {
      match this
      case Some(v) => [v]
      case None => []
    }
  }

  /** A call that returns a value or throws. */
  datatype Result<+T, +E> = Success(value: T) | Failure(error: E)

  /** A call that returns nothing or throws. */
  datatype Outcome<+E> = Pass | Fail(error: E)
}
