/** The optional value used throughout the model. */
module Wrappers {

  datatype Option<+T> = None | Some(value: T) {

    /** The value held in Some, or `default` when None. */
    function GetOr(default: T): T {
      match this
      case Some(v) => v
      case None => default
    }
  }
}
