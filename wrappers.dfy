/** The optional-value datatype used wherever the source has a value or None. */
module Wrappers {

  datatype Option<T> = None | Some(value: T) {

    /** The wrapped value, or the default when there is none. */
    function GetOr(default: T): T
    {
      match this
      case Some(v) => v
      case None => default
    }
  }
}
