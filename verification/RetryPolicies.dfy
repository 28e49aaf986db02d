/** The retry policy shared by the queue and the remote configuration, and its guardrails. */
module RetryPolicies {
  import opened Basics
  import opened Limits

  datatype RetryPolicy = RetryPolicy(
    baseDelayMs: real,
    maxDelayMs: real,
    multiplier: real,
    jitterRatio: real,
    maxAttempts: real
  )

  const BASE_DELAY_RANGE := Range(250.0, 60000.0)
  const MAX_DELAY_RANGE := Range(1000.0, 3600000.0)
  const MULTIPLIER_RANGE := Range(1.1, 10.0)
  const JITTER_RANGE := Range(0.0, 1.0)
  const MAX_ATTEMPTS_RANGE := Range(1.0, MAX_UPLOAD_ATTEMPTS as real)
  const DEFAULT_RETRY_POLICY := RetryPolicy(1000.0, 900000.0, 2.0, 0.25, MAX_UPLOAD_ATTEMPTS as real)

  /** Every guardrail, and the two fields that must agree. */
  predicate WellFormed(p: RetryPolicy) {
    && Within(p.baseDelayMs, BASE_DELAY_RANGE)
    && Within(p.maxDelayMs, MAX_DELAY_RANGE)
    && p.baseDelayMs <= p.maxDelayMs
    && Within(p.multiplier, MULTIPLIER_RANGE)
    && Within(p.jitterRatio, JITTER_RANGE)
    && Within(p.maxAttempts, MAX_ATTEMPTS_RANGE)
    && Integral(p.maxAttempts)
  }
}
