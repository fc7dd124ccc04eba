/** How long a throttled reader waits before it asks again. */
module RetryDelay {
  import opened Wrappers

  const MAX_RETRY_AFTER_MILLISECONDS: nat := 60_000

  /** The delay rounded up to a whole millisecond, never more than a minute, none for a missing or non-positive one. */
  function RetryAfterMilliseconds(seconds: Option<real>): (ms: nat)
    ensures ms <= MAX_RETRY_AFTER_MILLISECONDS
    ensures ms == 0 <==> seconds.None? || seconds.value <= 0.0
    ensures ms > 0 ==> (ms as real) < seconds.value * 1000.0 + 1.0
    ensures 0 < ms < MAX_RETRY_AFTER_MILLISECONDS ==> seconds.value * 1000.0 <= ms as real
  {
    match seconds
    case None => 0
    case Some(s) =>
      if s <= 0.0 then 0
      else
        var ms := -((-(s * 1000.0)).Floor);
        if ms > MAX_RETRY_AFTER_MILLISECONDS then MAX_RETRY_AFTER_MILLISECONDS else ms
  }
}
