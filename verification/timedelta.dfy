/** Elapsed time between two naive timestamps, read through Python's
    `timedelta.seconds`.

    A timestamp is an integer number of microseconds. Python normalises a
    `timedelta` to `days * 86400 s + seconds + microseconds` with
    `0 <= seconds < 86400` and `0 <= microseconds < 1000000`, and `.seconds` is
    only the middle component: a negative difference or one longer than a day
    wraps into `[0, 86400)` instead of being reported as such. */
module TimeDelta {

  const MicrosPerSecond: int := 1000000
  const SecondsPerDay: int := 86400
  const MicrosPerDay: int := 86400000000

  /** `(b - a).seconds` for timestamps `a` and `b` in microseconds. Dafny's `/`
      and `%` round towards negative infinity for a positive divisor, as
      `timedelta` normalisation does. */
  function DeltaSeconds(a: int, b: int): (r: int)
    ensures 0 <= r < SecondsPerDay
  {
    ((b - a) / MicrosPerSecond) % SecondsPerDay
  }

  /** The normalised form of a `timedelta`: the difference splits into whole
      days, the `.seconds` component and a microsecond remainder, each within
      its range. */
  lemma DeltaSecondsDecomposes(a: int, b: int)
    ensures var d := b - a;
            d == (d / MicrosPerDay) * MicrosPerDay
                 + DeltaSeconds(a, b) * MicrosPerSecond
                 + d % MicrosPerSecond
  {
  }

  /** Within one day and forwards in time, `.seconds` is the exact number of
      whole seconds elapsed. */
  lemma DeltaSecondsWithinDay(a: int, b: int)
    requires a <= b < a + MicrosPerDay
    ensures DeltaSeconds(a, b) * MicrosPerSecond <= b - a < (DeltaSeconds(a, b) + 1) * MicrosPerSecond
  {
  }

  /** The wrap-around: a timestamp one second earlier than its predecessor
      yields 86399 seconds, not -1. */
  lemma DeltaSecondsWrapsBackwards(a: int)
    ensures DeltaSeconds(a, a - MicrosPerSecond) == SecondsPerDay - 1
  {
  }

  /** The wrap-around the other way: a difference of one day and one second
      yields one second. */
  lemma DeltaSecondsWrapsPastDay(a: int)
    ensures DeltaSeconds(a, a + MicrosPerDay + MicrosPerSecond) == 1
  {
  }
}
