/** The nullable column, shared by every module. */
module Wrappers {

  datatype Option<+T> = None | Some(value: T) {

    /** Python's `value or default` on a column whose present values are all truthy. */
    function GetOr(default: T): T {
      match this
      case Some(v) => v
      case None => default
    }
  }
}
