/** Optional values, standing in for C#'s nullable references and `T?` values. */
module Wrappers {

  datatype Option<+T> = None | Some(value: T) {

    /** `x ?? d` in C#. */
    function GetOr(default: T): T {
      match this
      case Some(v) => v
      case None => default
    }
  }
}
