/** Optional values and results, standing in for Python's `None` and raised exceptions. */
module Wrappers {

  /** `None` or a present value, as Python's `Optional[T]`. */
  datatype Option<+T> = None | Some(value: T)

  /** A computed value, or the exception the source raises instead. */
  datatype Result<+R, +E> = Ok(value: R) | Err(error: E)

  /** Python truthiness of an `Optional[str]`: present and non-empty. */
  predicate Truthy(s: Option<string>) {
    s.Some? && s.value != ""
  }
}
