/** Values that may be absent, and the truth test the monitor applies to them. */
module Wrappers {

  /** A value that may be missing (Python's None). */
  datatype Option<+T> = None | Some(value: T)

  /** Truthiness of an optional string as an `if` in the source sees it:
      both None and the empty string are false. */
  predicate Truthy(s: Option<string>)
  {
    s.Some? && s.value != ""
  }
}
