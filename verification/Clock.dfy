// Times and durations in nanoseconds.
module Clock {
  const SECOND := 1_000_000_000
}
