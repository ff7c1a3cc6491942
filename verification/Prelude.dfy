/** Stock types and the JavaScript integer bound shared by every component. */
module Prelude {
  datatype Option<+T> = None | Some(value: T)

  datatype Result<+T, +E> = Ok(value: T) | Err(error: E)

  /** `Number.MAX_SAFE_INTEGER`. Every counter that crosses a wire is checked against it. */
  const MAX_SAFE: int := 9007199254740991

  /** `Number.isSafeInteger(v) && v >= minimum`; a value that is not an integer is modelled as absent. */
  predicate SafeInt(v: int, minimum: int) {
    minimum <= v <= MAX_SAFE
  }

  /** No element occurs at two positions. */
  predicate Distinct<T(==)>(s: seq<T>) {
    forall i, j :: 0 <= i < j < |s| ==> s[i] != s[j]
  }
}
