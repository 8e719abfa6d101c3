/** Optional values: JavaScript's `undefined`/`null` as `None`. */
module Wrappers {

  datatype Option<+T> = None | Some(value: T) {

    /** The nullish-coalescing operator `this ?? default`. */
    function GetOr(default: T): T {
      match this
      case Some(v) => v
      case None => default
    }
  }
}
