/** The optional value used wherever the source reads a key that may be absent. */
module Wrappers {

  datatype Option<+T> = None | Some(value: T) {

    /** The value, or `default` when there is none. */
    function GetOr(default: T): T {
      match this
      case Some(v) => v
      case None => default
    }
  }
}
