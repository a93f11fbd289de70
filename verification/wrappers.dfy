/** Optional values and error results, for Python's `None` and raised exceptions. */
module Wrappers {

  datatype Option<+T> = None | Some(value: T)

  /** The exceptions of the source that the model keeps, by kind. */
  datatype Error =
    | ValueError(message: string)   // e.g. `range()` with a zero step, `np.vstack` of nothing
    | AttributeError(message: string) // e.g. `.split` called on a missing (NaN) cell

  datatype Result<+T> = Ok(value: T) | Err(error: Error)

  /** Python truthiness of an optional string (`if error:`): present and non-empty. */
  predicate Truthy(e: Option<string>) {
    e.Some? && e.value != ""
  }
}
