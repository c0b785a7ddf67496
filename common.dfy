/** Small value types and helpers shared by every module of the model. */
module Common {

  /** A Java reference that may be null. */
  datatype Option<T> = None | Some(value: T)

  /** The outcome of a service call: a value, or the numeric error code the
      application reports (a `BusinessException` code, or 500 for an
      unexpected exception caught by the generic handler). */
  datatype Result<T> = Ok(value: T) | Err(code: int)

  function Min(a: int, b: int): int { if a <= b then a else b }

  function Max(a: int, b: int): int { if a >= b then a else b }

  /** `Math.max(lo, Math.min(hi, x))`. */
  function Clamp(x: int, lo: int, hi: int): int { Max(lo, Min(hi, x)) }

  /** `x != null ? x : d`. */
  function OrElse<T>(o: Option<T>, d: T): T { if o.Some? then o.value else d }

  /** `s != null && !s.isEmpty()`. */
  predicate NonEmpty(s: Option<string>) { s.Some? && s.value != "" }

  predicate NoDuplicates<T(==)>(s: seq<T>) {
    forall i, j :: 0 <= i < j < |s| ==> s[i] != s[j]
  }

  /** Java's `/` on integers truncates toward zero (Dafny's rounds down). */
  function JavaDiv(a: int, b: int): int
    requires b > 0
  {
    if a >= 0 then a / b else -((-a) / b)
  }
}
