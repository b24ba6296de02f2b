/** Optional values: the model's stand-in for TypeScript's `T | null | undefined`. */
module Optional {

  /** `None` is a missing value (`null` or `undefined`); `Some(v)` a present one. */
  datatype Option<+T> = None | Some(value: T) {

    /** The value, or `default` when missing: the `x ?? default` of the source. */
    function GetOr(default: T): (r: T)
      ensures Some? ==> r == value
      ensures None? ==> r == default
    {
      match this
      case Some(v) => v
      case None => default
    }
  }

  /** JavaScript truthiness of an optional string: present and not `''`. */
  predicate Truthy(s: Option<string>) {
    s.Some? && s.value != ""
  }

  /** `s || ''`: the string itself, or the empty string when missing. */
  function OrEmpty(s: Option<string>): (r: string)
    ensures r != "" <==> Truthy(s)
    ensures Truthy(s) ==> r == s.value
  {
    if s.Some? then s.value else ""
  }

  /** `s || fallback` for strings: empty or missing strings fall back. */
  function OrElse(s: Option<string>, fallback: string): (r: string)
    ensures Truthy(s) ==> r == s.value
    ensures !Truthy(s) ==> r == fallback
  {
    if s.Some? && s.value != "" then s.value else fallback
  }
}
