/** The optional value used for lookups that may find nothing (Python's `None`). */
module Wrappers {

  datatype Option<+T> = None | Some(value: T) {

    /** The wrapped value, or `default` when there is none. */
    function GetOr(default: T): T {
      match this
      case Some(v) => v
      case None => default
    }

    /** The wrapped value as a one-element sequence, or the empty one. */
    function ToSeq(): seq<T> {
      if Some? then [value] else []
    }
  }
}
