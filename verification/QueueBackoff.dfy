/** Retry policy clamping and exponential backoff (packages/location-core/src/queue.ts). */
module QueueBackoff {
  import opened Basics
  import opened Limits
  import opened RetryPolicies

  /** An untrusted policy: any field may be missing or not finite. */
  datatype PartialRetryPolicy = PartialRetryPolicy(
    baseDelayMs: Option<Num>,
    maxDelayMs: Option<Num>,
    multiplier: Option<Num>,
    jitterRatio: Option<Num>,
    maxAttempts: Option<Num>
  )

  function Whole(p: RetryPolicy): PartialRetryPolicy {
    PartialRetryPolicy(
      Some(Finite(p.baseDelayMs)), Some(Finite(p.maxDelayMs)), Some(Finite(p.multiplier)), Some(Finite(p.jitterRatio)),
      Some(Finite(p.maxAttempts)))
  }

  function ReadField(x: Option<Num>, fallback: real, range: Range): real {
    ClampInto(Finite(FiniteOr(x, fallback)), range)
  }

  function ClampRetryPolicy(policy: Option<PartialRetryPolicy>): RetryPolicy {
    var source := if policy.Some? then policy.value else Whole(DEFAULT_RETRY_POLICY);
    var baseDelayMs := ReadField(source.baseDelayMs, DEFAULT_RETRY_POLICY.baseDelayMs, BASE_DELAY_RANGE);
    RetryPolicy(
      baseDelayMs,
      Max(baseDelayMs, ReadField(source.maxDelayMs, DEFAULT_RETRY_POLICY.maxDelayMs, MAX_DELAY_RANGE)),
      ReadField(source.multiplier, DEFAULT_RETRY_POLICY.multiplier, MULTIPLIER_RANGE),
      ReadField(source.jitterRatio, DEFAULT_RETRY_POLICY.jitterRatio, JITTER_RANGE),
      Min(MAX_UPLOAD_ATTEMPTS as real,
        Round(ReadField(source.maxAttempts, DEFAULT_RETRY_POLICY.maxAttempts, MAX_ATTEMPTS_RANGE)) as real))
  }

  lemma ReadFieldWithin(x: Option<Num>, fallback: real, range: Range)
    requires range.min <= range.max
    ensures Within(ReadField(x, fallback, range), range)
    ensures forall v :: x == Some(Finite(v)) && Within(v, range) ==> ReadField(x, fallback, range) == v
  {
  }

  lemma RoundBounds(x: real, low: int, high: int)
    requires low as real <= x <= high as real
    ensures low <= Round(x) <= high
    ensures Integral(x) ==> Round(x) as real == x
  {
    RoundNearest(x);
    assert (low - 1) as real < Round(x) as real < (high + 1) as real;
    if Integral(x) { RoundWhole(x.Floor); }
  }

  lemma RoundNearest(x: real)
    ensures x - 0.5 < Round(x) as real <= x + 0.5
  {
  }

  lemma RoundWhole(n: int)
    ensures Round(n as real) == n
  {
    RoundNearest(n as real);
  }

  /** Every clamped policy is well formed, and the clamp changes none that already is. */
  lemma ClampRetryIsProjection(policy: Option<PartialRetryPolicy>, p: RetryPolicy)
    ensures WellFormed(ClampRetryPolicy(policy))
    ensures ClampRetryPolicy(Some(Whole(p))) == p <==> WellFormed(p)
  {
    ClampedWellFormed(policy);
    ClampedWellFormed(Some(Whole(p)));
    if WellFormed(p) { ClampFixes(p); }
  }

  lemma ClampedWellFormed(policy: Option<PartialRetryPolicy>)
    ensures WellFormed(ClampRetryPolicy(policy))
  {
    hide ReadField;
    var s := if policy.Some? then policy.value else Whole(DEFAULT_RETRY_POLICY);
    ReadFieldWithin(s.baseDelayMs, DEFAULT_RETRY_POLICY.baseDelayMs, BASE_DELAY_RANGE);
    ReadFieldWithin(s.maxDelayMs, DEFAULT_RETRY_POLICY.maxDelayMs, MAX_DELAY_RANGE);
    ReadFieldWithin(s.multiplier, DEFAULT_RETRY_POLICY.multiplier, MULTIPLIER_RANGE);
    ReadFieldWithin(s.jitterRatio, DEFAULT_RETRY_POLICY.jitterRatio, JITTER_RANGE);
    ReadFieldWithin(s.maxAttempts, DEFAULT_RETRY_POLICY.maxAttempts, MAX_ATTEMPTS_RANGE);
    RoundBounds(ReadField(s.maxAttempts, DEFAULT_RETRY_POLICY.maxAttempts, MAX_ATTEMPTS_RANGE), 1, MAX_UPLOAD_ATTEMPTS);
  }

  lemma ClampFixes(p: RetryPolicy)
    requires WellFormed(p)
    ensures ClampRetryPolicy(Some(Whole(p))) == p
  {
    hide ReadField;
    var s := Whole(p);
    ReadFieldWithin(s.baseDelayMs, DEFAULT_RETRY_POLICY.baseDelayMs, BASE_DELAY_RANGE);
    ReadFieldWithin(s.maxDelayMs, DEFAULT_RETRY_POLICY.maxDelayMs, MAX_DELAY_RANGE);
    ReadFieldWithin(s.multiplier, DEFAULT_RETRY_POLICY.multiplier, MULTIPLIER_RANGE);
    ReadFieldWithin(s.jitterRatio, DEFAULT_RETRY_POLICY.jitterRatio, JITTER_RANGE);
    ReadFieldWithin(s.maxAttempts, DEFAULT_RETRY_POLICY.maxAttempts, MAX_ATTEMPTS_RANGE);
    RoundBounds(p.maxAttempts, 1, MAX_UPLOAD_ATTEMPTS);
  }

  /**
   * Where each field of an untrusted policy goes: to the nearest point of its guardrail, from the
   * default if it is missing or not finite, with the longest delay raised to the base delay and the
   * attempts rounded.
   */
  lemma ClampRetryReads(policy: PartialRetryPolicy)
    ensures var p, d := ClampRetryPolicy(Some(policy)), DEFAULT_RETRY_POLICY;
            && Nearest(p.baseDelayMs, FiniteOr(policy.baseDelayMs, d.baseDelayMs), BASE_DELAY_RANGE)
            && Nearest(p.multiplier, FiniteOr(policy.multiplier, d.multiplier), MULTIPLIER_RANGE)
            && Nearest(p.jitterRatio, FiniteOr(policy.jitterRatio, d.jitterRatio), JITTER_RANGE)
            && (exists y ::
                  && Nearest(y, FiniteOr(policy.maxDelayMs, d.maxDelayMs), MAX_DELAY_RANGE)
                  && p.maxDelayMs == if y < p.baseDelayMs then p.baseDelayMs else y)
            && (exists y ::
                  && Nearest(y, FiniteOr(policy.maxAttempts, d.maxAttempts), MAX_ATTEMPTS_RANGE)
                  && Integral(p.maxAttempts) && y - 0.5 < p.maxAttempts <= y + 0.5)
    ensures ClampRetryPolicy(None) == DEFAULT_RETRY_POLICY
  {
    hide Nearest, ClampInto;
    var d := DEFAULT_RETRY_POLICY;
    ClampIsNearest(FiniteOr(policy.baseDelayMs, d.baseDelayMs), BASE_DELAY_RANGE);
    ClampIsNearest(FiniteOr(policy.maxDelayMs, d.maxDelayMs), MAX_DELAY_RANGE);
    ClampIsNearest(FiniteOr(policy.multiplier, d.multiplier), MULTIPLIER_RANGE);
    ClampIsNearest(FiniteOr(policy.jitterRatio, d.jitterRatio), JITTER_RANGE);
    ClampIsNearest(FiniteOr(policy.maxAttempts, d.maxAttempts), MAX_ATTEMPTS_RANGE);
    var y := ReadField(policy.maxAttempts, d.maxAttempts, MAX_ATTEMPTS_RANGE);
    ReadFieldWithin(policy.maxAttempts, d.maxAttempts, MAX_ATTEMPTS_RANGE);
    RoundBounds(y, 1, MAX_UPLOAD_ATTEMPTS);
    RoundNearest(y);
    ClampFixes(d);
  }

  // ---- backoff -----------------------------------------------------------

  function Pow(b: real, n: nat): real {
    if n == 0 then 1.0 else b * Pow(b, n - 1)
  }

  /** `clampUnitInterval`: a broken random source counts as 1/2. */
  function Draw(random: Num): real {
    match random
    case NonFinite => 0.5
    case Finite(v) => if v < 0.0 then 0.0 else if v > 1.0 then 1.0 else v
  }

  /** The number of earlier failures the delay grows with. */
  function Growths(attempt: Num): nat {
    var n := if attempt.Finite? then attempt.value.Floor else 1;
    if n < 1 then 0 else n - 1
  }

  function RawDelay(p: RetryPolicy, growths: nat): real {
    Min(p.baseDelayMs * Pow(p.multiplier, growths), p.maxDelayMs)
  }

  /** The delay with its jitter: from 1 - ratio times the delay for a draw of zero to 1 + ratio times it for one. */
  function Spread(delay: real, ratio: real, draw: real): real {
    delay + delay * ratio * (draw * 2.0 - 1.0)
  }

  function Jittered(p: RetryPolicy, raw: real, draw: real): real {
    Min(p.maxDelayMs, Max(0.0, Spread(raw, p.jitterRatio, draw)))
  }

  function BackoffDelay(attempt: Num, policy: Option<PartialRetryPolicy>, random: Num): int {
    var p := ClampRetryPolicy(policy);
    Round(Jittered(p, RawDelay(p, Growths(attempt)), Draw(random)))
  }

  lemma RoundMonotone(x: real, y: real)
    requires x <= y
    ensures Round(x) <= Round(y)
  {
  }

  lemma {:induction false} PowGrows(b: real, m: nat, n: nat)
    requires b >= 1.0 && m <= n
    ensures 1.0 <= Pow(b, m) <= Pow(b, n)
  {
    if n > 0 {
      if m == n {
        PowGrows(b, n - 1, n - 1);
      } else {
        PowGrows(b, m, n - 1);
      }
      var q := Pow(b, n - 1);
      assert b * q >= q by { assert (b - 1.0) * q >= 0.0; }
    }
  }

  /** Bernoulli's inequality for the smallest multiplier allowed. */
  lemma {:induction false} PowUnbounded(b: real, n: nat)
    requires b >= 1.1
    ensures Pow(b, n) >= 1.0 + 0.1 * n as real
  {
    if n > 0 {
      PowUnbounded(b, n - 1);
      var q := Pow(b, n - 1);
      assert b * q >= 1.1 * q by { assert (b - 1.1) * q >= 0.0; }
    }
  }

  /** Enough failures always reach the ceiling. */
  lemma CeilingReached(p: RetryPolicy)
    requires WellFormed(p)
    ensures RawDelay(p, 10 * MAX_DELAY_RANGE.max.Floor) == p.maxDelayMs
  {
    hide Pow;
    var n := 10 * MAX_DELAY_RANGE.max.Floor;
    PowUnbounded(p.multiplier, n);
    var growth := Pow(p.multiplier, n);
    assert growth >= MAX_DELAY_RANGE.max;
    assert p.baseDelayMs * growth >= growth by { assert (p.baseDelayMs - 1.0) * growth >= 0.0; }
  }

  lemma Between(x: real, top: real)
    requires top >= 0.0
    ensures 0.0 <= Min(top, Max(0.0, x)) <= top
  {
  }

  lemma JitterBounds(p: RetryPolicy, raw: real, draw: real)
    requires WellFormed(p)
    ensures 0.0 <= Jittered(p, raw, draw) <= p.maxDelayMs
  {
    hide Min, Max, Spread;
    Between(Spread(raw, p.jitterRatio, draw), p.maxDelayMs);
  }

  /** Whatever the random source does, the delay is not negative and exceeds the ceiling by at most one half. */
  lemma BackoffBounded(attempt: Num, policy: Option<PartialRetryPolicy>, random: Num)
    ensures 0 <= BackoffDelay(attempt, policy, random)
    ensures BackoffDelay(attempt, policy, random) <= Round(ClampRetryPolicy(policy).maxDelayMs)
    ensures BackoffDelay(attempt, policy, random) as real <= ClampRetryPolicy(policy).maxDelayMs + 0.5
  {
    hide ClampRetryPolicy, Pow, Jittered, RawDelay;
    var p := ClampRetryPolicy(policy);
    ClampedWellFormed(policy);
    var raw := RawDelay(p, Growths(attempt));
    JitterBounds(p, raw, Draw(random));
    RoundMonotone(Jittered(p, raw, Draw(random)), p.maxDelayMs);
    RoundMonotone(0.0, Jittered(p, raw, Draw(random)));
  }

  /**
   * "Bounded by maxDelayMs for every possible random draw" holds exactly if the ceiling does not
   * round up, as every integral ceiling does not.
   */
  lemma CeilingHoldsExactly(policy: Option<PartialRetryPolicy>)
    ensures (forall attempt, random ::
      BackoffDelay(attempt, policy, random) as real <= ClampRetryPolicy(policy).maxDelayMs)
        <==> Round(ClampRetryPolicy(policy).maxDelayMs) as real <= ClampRetryPolicy(policy).maxDelayMs
  {
    hide BackoffDelay, ClampRetryPolicy;
    forall attempt, random ensures BackoffDelay(attempt, policy, random) <= Round(ClampRetryPolicy(policy).maxDelayMs) {
      BackoffBounded(attempt, policy, random);
    }
    CeilingAttained(policy);
  }

  /**
   * A ceiling of 1000.5 ms, with the other fields at their defaults, is exceeded: the fourth attempt may wait
   * 1001 ms.
   */
  lemma FractionalCeilingExceeded()
    ensures var policy := Some(Whole(DEFAULT_RETRY_POLICY.(maxDelayMs := 1000.5)));
            && ClampRetryPolicy(policy).maxDelayMs == 1000.5
            && BackoffDelay(Finite(4.0), policy, Finite(1.0)) == 1001
  {
    hide ReadField;
    var p := DEFAULT_RETRY_POLICY.(maxDelayMs := 1000.5);
    ClampFixes(p);
    assert Growths(Finite(4.0)) == 3;
    assert Pow(2.0, 3) == 8.0 by { assert Pow(2.0, 2) == 4.0; }
    assert RawDelay(p, 3) == 1000.5;
    FullJitter(p);
    RoundNearest(1000.5);
    assert Round(1000.5) == 1001;
  }

  lemma CeilingAttained(policy: Option<PartialRetryPolicy>)
    ensures exists attempt, random ::
      BackoffDelay(attempt, policy, random) == Round(ClampRetryPolicy(policy).maxDelayMs)
  {
    hide ClampRetryPolicy, Pow, RawDelay;
    var p := ClampRetryPolicy(policy);
    ClampedWellFormed(policy);
    CeilingReached(p);
    var n := 10 * MAX_DELAY_RANGE.max.Floor;
    var attempt := Finite((n + 1) as real);
    assert Growths(attempt) == n;
    assert Jittered(p, p.maxDelayMs, 1.0) == p.maxDelayMs by { FullJitter(p); }
    assert BackoffDelay(attempt, policy, Finite(1.0)) == Round(p.maxDelayMs);
  }

  lemma FullJitter(p: RetryPolicy)
    requires WellFormed(p)
    ensures Jittered(p, p.maxDelayMs, 1.0) == p.maxDelayMs
  {
    hide Spread, Scaled, WellFormed;
    PolicyBounds(p);
    SpreadEnds(p.maxDelayMs, p.jitterRatio);
    ProductNonNegative(p.maxDelayMs, p.jitterRatio);
  }

  /** The delay before jitter: the base delay first, then the former delay times the multiplier, up to the ceiling. */
  function Planned(p: RetryPolicy, failures: nat): real {
    if failures <= 1 then p.baseDelayMs else Min(Planned(p, failures - 1) * p.multiplier, p.maxDelayMs)
  }

  lemma {:induction false} PlanIsRaw(p: RetryPolicy, growths: nat)
    requires WellFormed(p)
    ensures Planned(p, growths + 1) == RawDelay(p, growths) && 0.0 <= Planned(p, growths + 1) <= p.maxDelayMs
  {
    hide WellFormed, Pow, Min, RawDelay;
    PolicyBounds(p);
    RawStarts(p);
    if growths > 0 {
      PlanIsRaw(p, growths - 1);
      RawRecurs(p, growths - 1);
      RawGrows(p, growths, growths);
      RawCapped(p, growths);
    }
  }

  lemma RawStarts(p: RetryPolicy)
    requires WellFormed(p)
    ensures RawDelay(p, 0) == p.baseDelayMs
  {
    assert p.baseDelayMs * 1.0 == p.baseDelayMs;
  }

  lemma RawCapped(p: RetryPolicy, growths: nat)
    ensures RawDelay(p, growths) <= p.maxDelayMs
  {
    hide Pow;
  }

  lemma RawRecurs(p: RetryPolicy, growths: nat)
    requires WellFormed(p)
    ensures RawDelay(p, growths + 1) == Min(RawDelay(p, growths) * p.multiplier, p.maxDelayMs)
  {
    hide WellFormed, Pow;
    PolicyBounds(p);
    PowStep(p.multiplier, growths);
    GrowBase(p.baseDelayMs, p.multiplier, Pow(p.multiplier, growths), Pow(p.multiplier, growths + 1), p.maxDelayMs);
  }

  lemma PowStep(b: real, n: nat)
    ensures Pow(b, n + 1) == b * Pow(b, n)
  {
  }

  lemma PolicyBounds(p: RetryPolicy)
    requires WellFormed(p)
    ensures 250.0 <= p.baseDelayMs <= p.maxDelayMs && p.multiplier >= 1.1 && 0.0 <= p.jitterRatio <= 1.0
  {
  }

  /** Capping before or after growing comes to the same. */
  lemma GrowOnce(x: real, m: real, top: real)
    requires m >= 1.0 && top >= 0.0
    ensures Min(x * m, top) == Min(Min(x, top) * m, top)
  {
    if x > top {
      ProductNonNegative(x - top, m);
      assert (x - top) * m == x * m - top * m;
      ProductNonNegative(top, m - 1.0);
      assert top * (m - 1.0) == top * m - top;
    }
  }

  lemma GrowBase(base: real, m: real, growth: real, next: real, top: real)
    requires m >= 1.0 && top >= 0.0 && next == m * growth
    ensures Min(base * next, top) == Min(Min(base * growth, top) * m, top)
  {
    GrowOnce(base * growth, m, top);
    assert base * next == base * growth * m;
  }

  function Scaled(delay: real, factor: real): real {
    delay * factor
  }

  /** How many failures there have been: what is no number, or is below one, counts as the first. */
  predicate Counts(attempt: Num, failures: nat) {
    if attempt.Finite? && attempt.value >= 1.0 then failures as real <= attempt.value < (failures + 1) as real
    else failures == 1
  }

  /**
   * Every delay is the planned one, give or take the jitter: exactly that for the middle draw and
   * for a broken random source, the least for a draw of zero, the most, up to the ceiling, for a
   * draw of one, and in between the more the higher the draw.
   */
  lemma BackoffFollowsPlan(attempt: Num, failures: nat, policy: Option<PartialRetryPolicy>, low: real, high: real)
    requires Counts(attempt, failures) && low <= high
    ensures var p := ClampRetryPolicy(policy);
            var planned := Planned(p, failures);
            && BackoffDelay(attempt, policy, Finite(0.5)) == Round(planned)
            && BackoffDelay(attempt, policy, NonFinite) == Round(planned)
            && BackoffDelay(attempt, policy, Finite(0.0)) == Round(Scaled(planned, 1.0 - p.jitterRatio))
            && BackoffDelay(attempt, policy, Finite(1.0))
               == Round(Min(p.maxDelayMs, Scaled(planned, 1.0 + p.jitterRatio)))
            && BackoffDelay(attempt, policy, Finite(low)) <= BackoffDelay(attempt, policy, Finite(high))
  {
    hide ClampRetryPolicy, RawDelay, Jittered, Round, WellFormed, Scaled;
    var p := ClampRetryPolicy(policy);
    ClampedWellFormed(policy);
    PolicyBounds(p);
    assert Growths(attempt) + 1 == failures;
    PlanIsRaw(p, Growths(attempt));
    var planned := Planned(p, failures);
    JitteredEnds(p, planned);
    JitterFollowsDraw(p, planned, Draw(Finite(low)), Draw(Finite(high)));
    RoundMonotone(Jittered(p, planned, Draw(Finite(low))), Jittered(p, planned, Draw(Finite(high))));
  }

  lemma JitteredEnds(p: RetryPolicy, raw: real)
    requires 0.0 <= raw <= p.maxDelayMs && 0.0 <= p.jitterRatio <= 1.0
    ensures Jittered(p, raw, 0.5) == raw
    ensures Jittered(p, raw, 0.0) == Scaled(raw, 1.0 - p.jitterRatio)
    ensures Jittered(p, raw, 1.0) == Min(p.maxDelayMs, Scaled(raw, 1.0 + p.jitterRatio))
  {
    hide Spread;
    SpreadEnds(raw, p.jitterRatio);
    ProductNonNegative(raw, p.jitterRatio);
    ProductNonNegative(raw, 1.0 - p.jitterRatio);
  }

  lemma SpreadEnds(delay: real, ratio: real)
    ensures Spread(delay, ratio, 0.5) == delay
    ensures Spread(delay, ratio, 0.0) == Scaled(delay, 1.0 - ratio) == delay - delay * ratio
    ensures Spread(delay, ratio, 1.0) == Scaled(delay, 1.0 + ratio) == delay + delay * ratio
  {
  }

  lemma JitterFollowsDraw(p: RetryPolicy, raw: real, low: real, high: real)
    requires raw >= 0.0 && p.jitterRatio >= 0.0 && low <= high
    ensures Jittered(p, raw, low) <= Jittered(p, raw, high)
  {
    hide Spread;
    SpreadFollowsDraw(raw, p.jitterRatio, low, high);
  }

  lemma SpreadFollowsDraw(delay: real, ratio: real, low: real, high: real)
    requires delay >= 0.0 && ratio >= 0.0 && low <= high
    ensures Spread(delay, ratio, low) <= Spread(delay, ratio, high)
  {
    ProductNonNegative(delay, ratio);
    ProductNonNegative(delay * ratio, (high - low) * 2.0);
    assert Spread(delay, ratio, high) - Spread(delay, ratio, low) == delay * ratio * ((high - low) * 2.0);
  }

  /** For one and the same draw, more failures never shorten the wait. */
  lemma BackoffGrows(a: Num, b: Num, policy: Option<PartialRetryPolicy>, random: Num)
    requires a.Finite? && b.Finite? && a.value <= b.value
    ensures BackoffDelay(a, policy, random) <= BackoffDelay(b, policy, random)
  {
    hide ClampRetryPolicy, Jittered, RawDelay;
    var p := ClampRetryPolicy(policy);
    ClampedWellFormed(policy);
    RawGrows(p, Growths(a), Growths(b));
    var x, y := RawDelay(p, Growths(a)), RawDelay(p, Growths(b));
    JitterMonotone(p, x, y, Draw(random));
    RoundMonotone(Jittered(p, x, Draw(random)), Jittered(p, y, Draw(random)));
  }

  lemma RawGrows(p: RetryPolicy, m: nat, n: nat)
    requires WellFormed(p) && m <= n
    ensures 0.0 <= RawDelay(p, m) <= RawDelay(p, n)
  {
    hide Pow;
    PowGrows(p.multiplier, m, n);
    var x, y := Pow(p.multiplier, m), Pow(p.multiplier, n);
    ProductNonNegative(p.baseDelayMs, y - x);
    assert p.baseDelayMs * (y - x) == p.baseDelayMs * y - p.baseDelayMs * x;
    ProductNonNegative(p.baseDelayMs, x);
  }

  function Swing(ratio: real, draw: real): real {
    ratio * (draw * 2.0 - 1.0)
  }

  lemma SpreadIs(target: real, ratio: real, draw: real)
    ensures Spread(target, ratio, draw) == target * (1.0 + Swing(ratio, draw))
  {
    Associates(target, ratio, draw * 2.0 - 1.0);
  }

  lemma Associates(a: real, b: real, c: real)
    ensures a + a * b * c == a * (1.0 + b * c)
  {
  }

  lemma SpreadMonotone(a: real, b: real, ratio: real, draw: real)
    requires a <= b && 0.0 <= ratio <= 1.0 && 0.0 <= draw <= 1.0
    ensures Spread(a, ratio, draw) <= Spread(b, ratio, draw)
  {
    var factor := 1.0 + ratio * (draw * 2.0 - 1.0);
    JitterSwing(ratio, draw);
    SpreadIs(a, ratio, draw);
    SpreadIs(b, ratio, draw);
    ProductNonNegative(b - a, factor);
    assert (b - a) * factor == b * factor - a * factor;
  }

  lemma JitterMonotone(p: RetryPolicy, x: real, y: real, draw: real)
    requires WellFormed(p) && 0.0 <= x <= y && 0.0 <= draw <= 1.0
    ensures Jittered(p, x, draw) <= Jittered(p, y, draw)
  {
    hide Spread;
    SpreadMonotone(x, y, p.jitterRatio, draw);
  }

  lemma ProductNonNegative(a: real, b: real)
    requires a >= 0.0 && b >= 0.0
    ensures a * b >= 0.0
  {
  }

  lemma JitterSwing(ratio: real, draw: real)
    requires 0.0 <= ratio <= 1.0 && 0.0 <= draw <= 1.0
    ensures ratio * (draw * 2.0 - 1.0) >= -1.0
  {
    var t := draw * 2.0;
    ProductNonNegative(ratio, t);
    assert ratio * (t - 1.0) == ratio * t - ratio;
  }
}
