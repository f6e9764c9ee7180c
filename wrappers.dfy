/** Optional values (a .NET reference that may be null) and results (an exception or a value). */
module Wrappers {

  datatype Option<+T> = None | Some(value: T)

  datatype Result<+R, +E> = Success(value: R) | Failure(error: E)

  /** `string.IsNullOrEmpty` on a string reference that may be null. */
  predicate IsNullOrEmpty(s: Option<string>) {
    s.None? || s.value == ""
  }
}
