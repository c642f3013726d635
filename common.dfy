/** Small value types shared by every part of the model. */
module Common {

  /** A value that may be missing (Python's None, JavaScript's null). */
  datatype Option<+T> = None | Some(value: T)

  /** The outcome of an operation that raises on failure: the value, or the exception it raised. */
  datatype Result<+T, +E> = Ok(value: T) | Err(error: E)

  /** The truth value of an optional string in Python and in JavaScript: None (null, undefined) and "" are false. */
  predicate Truthy(s: Option<string>)
  {
    s.Some? && s.value != ""
  }

  /** A byte, as Python's `bytes` holds them. */
  type byte = b: int | 0 <= b < 256

  /** True when `p` is a prefix of `s` (Python's `str.startswith`, JavaScript's `startsWith`). */
  predicate StartsWith(s: string, p: string)
  {
    |p| <= |s| && s[..|p|] == p
  }

  /** True when `p` is a suffix of `s` (JavaScript's `endsWith`). */
  predicate EndsWith(s: string, p: string)
  {
    |p| <= |s| && s[|s| - |p|..] == p
  }
}
