/** Shared vocabulary: optional values, results, and instants.

    Instants and durations are integers counting nanoseconds. A Go `time.Time` that may be
    the zero time is an `Option<int>`, with `None` for the zero time. */
module Basics {
  datatype Option<+T> = None | Some(value: T)

  datatype Result<+T> = Ok(value: T) | Rejected

  const MILLISECOND: int := 1_000_000
  const SECOND: int := 1_000_000_000
  const MINUTE: int := 60 * SECOND

  function Max(a: int, b: int): (m: int)
    ensures m >= a && m >= b && (m == a || m == b)
  {
    if a > b then a else b
  }
}
