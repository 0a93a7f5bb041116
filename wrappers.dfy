/** Option and Result values used for fields a parse may leave unassigned and for parse errors. */
module Wrappers {

  datatype Option<+T> = None | Some(value: T) {
    /** The value carried, or `default` when there is none. */
    function GetOr(default: T): T {
      match this
      case Some(v) => v
      case None => default
    }
  }

  datatype Result<+T, +E> = Success(value: T) | Failure(error: E)
}
