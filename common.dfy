/** Small value types shared by every part of the model. */
module Common {

  /** Python's `None`-or-value. */
  datatype Option<+T> = None | Some(value: T)

  /** The outcome of a Python call that either returns a value or lets an exception escape. */
  datatype Call<+T> = Return(value: T) | Raise

  /** A byte as Python's `bytes` holds it. */
  newtype byte = b: int | 0 <= b < 256

  /** Python truthiness of an optional string: `None` and `""` are both false. */
  predicate Truthy(s: Option<string>)
  {
    s.Some? && s.value != ""
  }

  function Max(a: int, b: int): (m: int)
    ensures m >= a && m >= b && (m == a || m == b)
  {
    if a < b then b else a
  }

  /** `s.startswith(p)` */
  predicate StartsWith(s: string, p: string)
  {
    |p| <= |s| && s[..|p|] == p
  }

  /** Seconds in one day; `timedelta.days` counts these. */
  const SecondsPerDay: int := 86400
}
