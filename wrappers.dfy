/** Optional values: a JSON field whose value may be `null`. */
module Wrappers {

  datatype Option<+T> = None | Some(value: T) {

    /** `x || fallback` on a field that is either present or null. */
    function GetOr(fallback: T): (r: T)
      ensures Some? ==> r == value
      ensures None? ==> r == fallback
    {
      match this
      case Some(v) => v
      case None => fallback
    }
  }
}
