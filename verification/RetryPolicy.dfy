/** retry_policy.go and claimLeaseDuration of worker.go. Durations are nanoseconds. */
module RetryPolicy {
  import opened Timestamps

  const LEASE_BUFFER: nat := 2 * SECOND

  function RetryDelay(attemptCount: int, retryAfter: int): (d: nat)
    ensures d > 0
    ensures retryAfter > 0 ==> d == retryAfter
    ensures retryAfter <= 0 ==> 10 * SECOND <= d <= 900 * SECOND
  {
    if retryAfter > 0 then retryAfter
    else match attemptCount
      case 1 => 10 * SECOND
      case 2 => 60 * SECOND
      case 3 => 300 * SECOND
      case _ => 900 * SECOND
  }

  /** The schedule: Telegram's hint when there is one, else 10s, 60s, 5m and from then on 15m. */
  lemma Schedule(attemptCount: int, retryAfter: int)
    ensures retryAfter > 0 ==> RetryDelay(attemptCount, retryAfter) == retryAfter
    ensures retryAfter <= 0 ==>
      && RetryDelay(1, retryAfter) == 10 * SECOND && RetryDelay(2, retryAfter) == 60 * SECOND
      && RetryDelay(3, retryAfter) == 300 * SECOND
      && (attemptCount < 1 || attemptCount > 3 ==> RetryDelay(attemptCount, retryAfter) == 900 * SECOND)
  {
  }

  /** Without a hint from Telegram the delay never shrinks from one attempt to the next. */
  lemma BackoffGrows(m: int, n: int)
    requires 1 <= m <= n
    ensures RetryDelay(m, 0) <= RetryDelay(n, 0)
  {
  }

  /** The lease outlives the send by two seconds, whatever timeout is configured. */
  function ClaimLeaseDuration(sendTimeout: int): (d: nat)
    ensures d > 0 && d >= sendTimeout + LEASE_BUFFER
  {
    if sendTimeout + LEASE_BUFFER <= 0 then LEASE_BUFFER else sendTimeout + LEASE_BUFFER
  }

  /** A lost job is held back no longer than its send may take and two seconds. */
  lemma LeaseIsTight(sendTimeout: int)
    ensures ClaimLeaseDuration(sendTimeout) == if sendTimeout > -2_000_000_000 then sendTimeout + 2_000_000_000
                                               else 2_000_000_000
  {
  }
}
