/** Timestamps as returned by Arduino's `millis()`: an `unsigned long`, 32 bits wide. */
module Clock {

  /** Number of distinct `unsigned long` values; `millis()` wraps around after this many milliseconds. */
  const ULongModulus: int := 0x1_0000_0000

  type Millis = t: int | 0 <= t < ULongModulus

  /** `now - since` computed in `unsigned long` arithmetic: the wrap-safe elapsed time. */
  function Elapsed(now: Millis, since: Millis): (d: Millis)
    ensures (since + d) % ULongModulus == now
    ensures since <= now ==> d == now - since
    ensures now < since ==> d == ULongModulus - since + now
  {
    (now - since) % ULongModulus
  }

  /** Every time in `times` comes at least `gap` milliseconds after the previous one (the
      first after `since`). */
  predicate Paced(since: Millis, times: seq<Millis>, gap: nat)
    decreases |times|
  {
    times == [] || (Elapsed(times[0], since) >= gap && Paced(times[0], times[1..], gap))
  }
}
