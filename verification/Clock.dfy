/** Durations in nanoseconds. */
module Clock {
  const SECOND: nat := 1_000_000_000
}
