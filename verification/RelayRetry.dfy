/** `relay_retry`: how long a retry waits, in nanoseconds, and which provider codes are retryable. */
module RelayRetry {
  import opened Wrappers

  const SECOND := 1_000_000_000
  const MAX_RETRIES := 10
  const RETRY_AFTER_MAX := 15 * 60 * SECOND

  function Min(a: int, b: int): int {
    if a < b then a else b
  }

  function Max(a: int, b: int): int {
    if a < b then b else a
  }

  function BaseSeconds(retry: nat): nat {
    match retry
    case 0 => 2
    case 1 => 2
    case 2 => 4
    case 3 => 8
    case _ => 10
  }

  function OrZero(retryAfter: Option<nat>): nat {
    if retryAfter.Some? then retryAfter.value else 0
  }

  /** `delay`, where `jitter` is the random number of seconds. */
  function Delay(retry: nat, retryAfter: Option<nat>, jitter: nat): int {
    var scheduled := Min((BaseSeconds(retry) + jitter) * SECOND, Min(RETRY_AFTER_MAX, 10 * SECOND));
    Min(Max(OrZero(retryAfter), scheduled), RETRY_AFTER_MAX)
  }

  function MaximumDelay(retry: nat, retryAfter: Option<nat>): int {
    Min(Max(BaseSeconds(retry) * SECOND, OrZero(retryAfter)), RETRY_AFTER_MAX)
  }

  /** `maximum_delay` is the least delay that a jitter can give, not the greatest: it is reached
      without jitter.  Every delay is at least two seconds, at most fifteen minutes, honours the
      provider's wait, and exceeds `maximum_delay` by at most the jitter. */
  lemma {:induction false} MaximumDelayIsTheLeast(retry: nat, retryAfter: Option<nat>, jitter: nat)
    ensures Delay(retry, retryAfter, 0) == MaximumDelay(retry, retryAfter)
    ensures MaximumDelay(retry, retryAfter) <= Delay(retry, retryAfter, jitter) <= RETRY_AFTER_MAX
    ensures Delay(retry, retryAfter, jitter) <= MaximumDelay(retry, retryAfter) + jitter * SECOND
    ensures Min(OrZero(retryAfter), RETRY_AFTER_MAX) <= Delay(retry, retryAfter, jitter)
    ensures 2 * SECOND <= Delay(retry, retryAfter, jitter)
  {
  }

  /** The base is two seconds and doubles with each retry up to ten; the jitter adds its seconds up to the same
      ten; and a longer wait that the provider asks for is kept up to a quarter of an hour. */
  lemma {:induction false} DelayExactly(retry: nat, retryAfter: Option<nat>, jitter: nat)
    ensures BaseSeconds(1) == 2 && (retry >= 1 ==> BaseSeconds(retry + 1) == Min(2 * BaseSeconds(retry), 10))
    ensures Delay(retry, None, jitter) == Min(BaseSeconds(retry) + jitter, 10) * SECOND
    ensures retryAfter.Some? ==>
              Delay(retry, retryAfter, jitter) == Min(Max(retryAfter.value, Delay(retry, None, jitter)), 900 * SECOND)
  {
  }

  /** A jitter in `0..=base` can carry the delay past `maximum_delay` exactly for the first three
      retries, when the provider asks for less than the full backoff. */
  lemma {:induction false} DelayCanExceed(retry: nat, retryAfter: Option<nat>)
    ensures (exists jitter: nat :: jitter <= BaseSeconds(retry) && Delay(retry, retryAfter, jitter) > MaximumDelay(retry, retryAfter))
       <==> retry <= 3 && OrZero(retryAfter) < Min(2 * BaseSeconds(retry), 10) * SECOND
  {
    var base := BaseSeconds(retry);
    if retry <= 3 && OrZero(retryAfter) < Min(2 * base, 10) * SECOND {
      assert base <= base && Delay(retry, retryAfter, base) > MaximumDelay(retry, retryAfter);
    }
    forall jitter: nat | jitter <= base && Delay(retry, retryAfter, jitter) > MaximumDelay(retry, retryAfter)
      ensures retry <= 3 && OrZero(retryAfter) < Min(2 * base, 10) * SECOND
    {
    }
  }

  /** Over the jitters that can be drawn the full base gives the greatest delay. */
  lemma {:induction false} GreatestDelay(retry: nat, retryAfter: Option<nat>, jitter: nat)
    requires jitter <= BaseSeconds(retry)
    ensures Delay(retry, retryAfter, jitter) <= Delay(retry, retryAfter, BaseSeconds(retry))
    ensures Delay(retry, retryAfter, BaseSeconds(retry))
         == Min(Max(OrZero(retryAfter), Min(2 * BaseSeconds(retry), 10) * SECOND), RETRY_AFTER_MAX)
  {
  }

  const SERVER_CODES: set<string> := {
    "api_error", "internal_error", "modelstreamerrorexception", "overloaded_error", "server_error",
    "server_is_overloaded", "service_unavailable", "serviceunavailableexception", "slow_down"}
  const RATE_CODES: set<string> := {"rate_limit_exceeded", "too_many_requests"}
  const QUOTA_CODES: set<string> := {"usage_limit_reached", "quota_exhausted", "insufficient_quota"}

  /** `retryable_provider_code`. */
  predicate RetryableCode(code: Option<string>) {
    code.None? || code.value in SERVER_CODES || code.value in RATE_CODES
  }

  /** `is_limit_failure_code`, which is also when a failure is classified with a limit kind. */
  predicate LimitCode(code: Option<string>) {
    code.Some? && (code.value in RATE_CODES || code.value in QUOTA_CODES)
  }
}
