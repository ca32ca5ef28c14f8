/** Optional values: the model's stand-in for `undefined` (and, where the
    source treats it the same way, `null`). */
module Wrappers {

  datatype Option<+T> = None | Some(value: T) {

    /** The `??` operator: the carried value, or `default` when absent. */
    function GetOr(default: T): T {
      match this
      case Some(v) => v
      case None => default
    }
  }
}
