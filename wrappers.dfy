/** Optional values: the model's stand-in for Python's None. */
module Wrappers {

  datatype Option<T> = None | Some(value: T)
  {
    /** The value when present, otherwise the given default (Python's `x or default` on None). */
    function GetOr(default: T): (r: T)
      ensures this.Some? ==> r == value
      ensures this.None? ==> r == default
    {
      match this
      case Some(v) => v
      case None => default
    }
  }

  /** Python truthiness of an optional number: None and zero are falsy. */
  predicate TruthyReal(x: Option<real>)
  {
    x.Some? && x.value != 0.0
  }

  /** Python truthiness of an optional string: None and the empty string are falsy. */
  predicate TruthyString(s: Option<string>)
  {
    s.Some? && s.value != ""
  }
}
