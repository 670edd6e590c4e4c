/** Failure-compatible wrapper used throughout the model. */
module Wrappers {

  /** An optional value: JavaScript's `null` / "not there" on the model's side. */
  datatype Option<+T> = None | Some(value: T) {

    /** The wrapped value, or `default` when there is none. */
    function GetOr(default: T): T {
      match this
      case Some(v) => v
      case None => default
    }
  }
}
