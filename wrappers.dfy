/** Optional values: `None` stands for JavaScript's `null` / `undefined`. */
module Wrappers {

  datatype Option<+T> = None | Some(value: T) {

    /** `x ?? d` when `x` is either a value or null. */
    function GetOr(default: T): T {
      if Some? then value else default
    }

    /** `a ?? b` when both sides are either a value or null. */
    function Or(other: Option<T>): Option<T> {
      if Some? then this else other
    }
  }
}
