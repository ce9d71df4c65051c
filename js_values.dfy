/** The few JavaScript value rules the server relies on: optional values
    (`undefined` versus a string), truthiness of a string, the `x || ''`
    default and `String.prototype.slice(0, end)`. */
module JsValues {

  /** A value that may be `undefined`. */
  datatype Option<T> = None | Some(value: T)

  /** A possibly missing string is truthy when it is present and not "". */
  predicate Truthy(s: Option<string>) {
    s.Some? && s.value != ""
  }

  /** `s || ''` for a possibly missing string. */
  function OrEmpty(s: Option<string>): (r: string)
    ensures r == if s.Some? then s.value else ""
  {
    if Truthy(s) then s.value else ""
  }

  /** `s.slice(0, end)`: the longest prefix of `s` that is at most `end` long. */
  function SliceTo(s: string, end: nat): (r: string)
    ensures r <= s
    ensures |r| == if |s| <= end then |s| else end
  {
    if |s| <= end then s else s[..end]
  }
}
