/** Instants and durations, in nanoseconds since the Unix epoch, with Go's 64-bit arithmetic. */
module Clock {
  import opened Numbers

  type Time = int

  const MS: int := 1_000_000
  const SECOND: int := 1_000_000_000

  /** Seconds from Go's internal epoch (1 January of year 1) to the Unix epoch. */
  const UNIX_TO_INTERNAL: int := 62_135_596_800

  /** Go's zero `time.Time`, used by the store to mean "no expiry". */
  const NEVER: Time := -UNIX_TO_INTERNAL * SECOND

  /** An instant the machine clock may show: from 1970 to the year 2262. */
  predicate Readable(t: Time) {
    0 <= t < TWO_63
  }

  /** `time.Duration(n) * time.Second` */
  function Seconds(n: int): int { Wrap64(n * SECOND) }

  /** `time.Duration(n) * time.Millisecond` */
  function Millis(n: int): int { Wrap64(n * MS) }

  /** `time.Unix(n, 0)` */
  function UnixSeconds(n: int): Time {
    (Wrap64(n + UNIX_TO_INTERNAL) - UNIX_TO_INTERNAL) * SECOND
  }

  /** `time.UnixMilli(n)` */
  function UnixMillis(n: int): Time { n * MS }

  /** `t.UnixMilli()`: rounds down to the millisecond, then wraps. */
  function ToMillis(t: Time): (n: int)
    ensures FitsInt64(n)
  {
    Wrap64(t / MS)
  }

  /** `t.UnixNano()` */
  function ToNanos(t: Time): (n: int)
    ensures FitsInt64(n)
  {
    Wrap64(t)
  }

  /** `t.Sub(u)`: saturates at the bounds of a 64-bit duration. */
  function Saturate(n: int): (r: int)
    ensures FitsInt64(r)
  {
    if n > MAX_INT64 then MAX_INT64 else if n < MIN_INT64 then MIN_INT64 else n
  }

  /** Go's integer division, which truncates toward zero. */
  function Quotient(a: int, b: int): int
    requires b > 0
  {
    if a >= 0 then a / b else -((-a) / b)
  }

  predicate Nondecreasing(ts: seq<Time>) {
    forall i, j :: 0 <= i < j < |ts| ==> ts[i] <= ts[j]
  }
}
