/** Optional values: JavaScript's `undefined` next to a defined value. */
module Wrappers {

  datatype Option<+T> = None | Some(value: T) {

    /** The value when defined, `fallback` otherwise (JavaScript's `x ?? fallback`). */
    function GetOr(fallback: T): T {
      match this
      case Some(v) => v
      case None => fallback
    }
  }
}
