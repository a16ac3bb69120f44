/** Optional values: the model's stand-in for a JavaScript property that may be
    `undefined` (or `null`), together with the `??` operator. */
module Wrappers {

  datatype Option<+T> = None | Some(value: T) {

    /** `x ?? default`: the carried value, or `default` when absent. */
    function GetOr(default: T): (r: T)
      ensures Some? ==> r == value
      ensures None? ==> r == default
    {
      match this
      case Some(v) => v
      case None => default
    }
  }

  /** JavaScript truthiness of an optional boolean (`if (x)` on `boolean | undefined`). */
  predicate IsTrue(b: Option<bool>) {
    b == Some(true)
  }

  /** JavaScript truthiness of an optional string: `undefined` and `''` are falsy. */
  predicate IsPresent(s: Option<string>) {
    s.Some? && s.value != ""
  }
}
