/** The optional-value type used across the model: `None` plays the part of
    JavaScript's `undefined` (or `null`) wherever the source tests for it. */
module Wrappers {

  datatype Option<+T> = None | Some(value: T) {

    /** The value, or `default` when there is none (`x ?? default`). */
    function GetOr(default: T): T {
      match this
      case Some(v) => v
      case None => default
    }
  }
}
