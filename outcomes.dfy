/** Optional values: JavaScript's `undefined` (and, where noted, a supplied `null`). */
module Outcomes {

  datatype Option<T> = None | Some(value: T) {

    /** The value if present, otherwise `default` (JavaScript's `??`). */
    function GetOr(default: T): T
    {
      match this
      case Some(v) => v
      case None => default
    }
  }
}
