/** Optional values, shared by every module of the model. */
module Wrappers {

  /** The conventional Some/None datatype, standing for Python's `None` and for absent keys. */
  datatype Option<+T> = None | Some(value: T) {

    /** The wrapped value, or `default` when there is none. */
    function GetOr(default: T): T {
      match this
      case Some(v) => v
      case None => default
    }
  }
}
