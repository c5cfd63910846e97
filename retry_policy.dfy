// orchestrator/src/server/services/llm/policies/retry-policy.ts: which
// failed LLM attempts are retried, and how long to wait before the next.
module RetryPolicy {
  import opened Wrappers
  import opened Text

  /** `shouldRetryAttempt`: a parse failure, 429, a 5xx, a timeout or a failed fetch. */
  predicate ShouldRetryAttempt(message: string, status: Option<int>)
  {
    Contains(message, "parse") ||
    status == Some(429) ||
    (status.Some? && status.value >= 500 && status.value <= 599) ||
    Contains(Lower(message), "timeout") ||
    Contains(Lower(message), "fetch failed")
  }

  /** The message markers that make any failure retryable. */
  predicate RetryableMessage(message: string)
  {
    Contains(message, "parse") || Contains(Lower(message), "timeout") || Contains(Lower(message), "fetch failed")
  }

  /**
    * An attempt is retried exactly when its status is 429 or a server error,
    * or its message is retryable; in particular every 5xx is retried and a
    * 4xx other than 429 is retried only for its message.
    */
  lemma ShouldRetrySpec(message: string, status: Option<int>)
    ensures ShouldRetryAttempt(message, status) <==>
      RetryableMessage(message) || (status.Some? && (status.value == 429 || 500 <= status.value < 600))
    ensures status.Some? && 500 <= status.value <= 599 ==> ShouldRetryAttempt(message, status)
    ensures status.Some? && 400 <= status.value <= 499 && status.value != 429 ==>
      (ShouldRetryAttempt(message, status) <==> RetryableMessage(message))
  {
  }

  /** `getRetryDelayMs`: the base delay times the attempt number. */
  function GetRetryDelayMs(baseDelayMs: int, attempt: int): int
  {
    baseDelayMs * attempt
  }

  /** The delay grows by the base delay with each attempt, so it is monotone for a non-negative base. */
  lemma RetryDelayLinear(baseDelayMs: int, attempt: int, later: int)
    requires baseDelayMs >= 0 && attempt <= later
    ensures GetRetryDelayMs(baseDelayMs, attempt + 1) - GetRetryDelayMs(baseDelayMs, attempt) == baseDelayMs
    ensures GetRetryDelayMs(baseDelayMs, attempt) <= GetRetryDelayMs(baseDelayMs, later)
    ensures GetRetryDelayMs(baseDelayMs, 0) == 0
  {
    assert baseDelayMs * (attempt + 1) == baseDelayMs * attempt + baseDelayMs;
    assert baseDelayMs * later - baseDelayMs * attempt == baseDelayMs * (later - attempt);
  }
}
