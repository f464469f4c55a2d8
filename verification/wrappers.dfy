/**
 * The optional value used wherever the system answers "no value": a query
 * that raised, a missing attribute, an empty mailbox, a Python `None`.
 */
module Wrappers {

  datatype Option<+T> = None | Some(value: T) {

    /** The held value, or `default` when there is none (Python's `x or default`). */
    function GetOr(default: T): T {
      match this
      case Some(v) => v
      case None => default
    }
  }
}
