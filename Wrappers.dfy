/** The optional value used for JavaScript's `null` / `undefined`. */
module Wrappers {
  datatype Option<+T> = None | Some(value: T)

  /** JavaScript truthiness of an optional string: null, undefined and "" are falsy. */
  predicate Nonblank(s: Option<string>)
  {
    s.Some? && s.value != ""
  }
}
