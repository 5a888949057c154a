/** Optional values: JavaScript's `undefined`/`null` and SQL's NULL are `None`. */
module Wrappers {

  datatype Option<+T> = None | Some(value: T) {

    /** What `x ?? fallback` gives for a plain fallback: the present value,
        else `fallback`. */
    function ValueOr(fallback: T): T {
      match this
      case Some(v) => v
      case None => fallback
    }
  }

  /** JavaScript's nullish coalescing `a ?? b`: `a` unless it is absent. */
  function Coalesce<T>(a: Option<T>, b: Option<T>): Option<T> {
    if a.Some? then a else b
  }
}
