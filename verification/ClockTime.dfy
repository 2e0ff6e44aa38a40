/** Clock readings in nanoseconds, and durations in whole milliseconds. */
module ClockTime {

  const NANOS_PER_MILLI: int := 1_000_000

  /** A duration in whole milliseconds, truncated toward zero. */
  function ElapsedMillis(now: int, last: int): int {
    if now >= last then (now - last) / NANOS_PER_MILLI else -((last - now) / NANOS_PER_MILLI)
  }

  /** It reaches a period exactly when that much time has passed. */
  lemma ElapsedMeans(now: int, last: int, millis: int)
    requires millis > 0
    ensures ElapsedMillis(now, last) >= millis <==> now - last >= millis * NANOS_PER_MILLI
  {
  }
}
