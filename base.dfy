/** Small shared vocabulary: optional values and the integer clock. */
module Base {

  /** A value that may be missing (Python's None). */
  datatype Option<+T> = None | Some(value: T) {
    /** The value, or `default` when missing (Python's `x or default` for a missing x). */
    function GetOr(default: T): T {
      match this
      case Some(v) => v
      case None => default
    }
  }

  /** A point in time, counted in seconds on the UTC clock the application stores. */
  type Timestamp = int

  const SecondsPerDay: int := 86400

  /** The calendar day a timestamp falls on (`datetime.date()` of a naive UTC datetime). */
  function Day(t: Timestamp): int {
    t / SecondsPerDay
  }

  /** `t + timedelta(days=n)` */
  function AddDays(t: Timestamp, n: int): Timestamp {
    t + n * SecondsPerDay
  }

  function Max(a: int, b: int): int { if a >= b then a else b }
  function Min(a: int, b: int): int { if a <= b then a else b }

  /** `max(lo, min(hi, x))` */
  function Clamp(lo: int, hi: int, x: int): int { Max(lo, Min(hi, x)) }
}
