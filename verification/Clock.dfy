/** Time is counted in integer nanoseconds. */
module Clock {
  const SECOND := 1_000_000_000
}
