/** Retry timing of the API client (packages/api-client/src/retry.ts). */
module RequestTiming {
  import opened Basics
  import opened RetryPolicies
  import opened QueueBackoff

  const DEFAULT_MAX_RETRY_AFTER_MS := 60000.0
  const DEFAULT_JITTER_RATIO := 0.2
  const DEFAULT_REQUEST_POLICY := RetryPolicy(250.0, 8000.0, 2.0, DEFAULT_JITTER_RATIO, 4.0)

  /** The clamped jitter ratio; the policy itself is taken as it comes. */
  function JitterRatio(p: RetryPolicy): real {
    Min(1.0, Max(0.0, p.jitterRatio))
  }

  /** The delay before jitter: the server's hint, clamped, or else the capped exponential. */
  function Target(attempt: nat, p: RetryPolicy, retryAfterMs: Option<real>, maxRetryAfterMs: real): real {
    if retryAfterMs.Some? then Min(retryAfterMs.value, maxRetryAfterMs)
    else Min(p.maxDelayMs, p.baseDelayMs * Pow(p.multiplier, if attempt >= 1 then attempt - 1 else 0))
  }

  /** The delay without cap or jitter: the base delay first, and then the former delay times the multiplier. */
  function Uncapped(attempt: nat, p: RetryPolicy): real {
    if attempt <= 1 then p.baseDelayMs else Uncapped(attempt - 1, p) * p.multiplier
  }

  /** The delay before jitter: the server's hint up to its ceiling, or else the growing delay up to the longest. */
  function Planned(attempt: nat, p: RetryPolicy, retryAfterMs: Option<real>, maxRetryAfterMs: real): real {
    match retryAfterMs
    case Some(hintMs) => Min(hintMs, maxRetryAfterMs)
    case None => Min(Uncapped(attempt, p), p.maxDelayMs)
  }

  lemma {:induction false} UncappedIsPower(attempt: nat, p: RetryPolicy)
    requires attempt >= 1
    ensures Uncapped(attempt, p) == p.baseDelayMs * Pow(p.multiplier, attempt - 1)
  {
    if attempt == 1 {
      assert Pow(p.multiplier, 0) == 1.0;
    } else {
      UncappedIsPower(attempt - 1, p);
      PowStep(p.multiplier, attempt - 2);
      TimesFactor(p.baseDelayMs, p.multiplier, Pow(p.multiplier, attempt - 2), Pow(p.multiplier, attempt - 1));
    }
  }

  lemma TimesFactor(base: real, m: real, growth: real, next: real)
    requires next == m * growth
    ensures base * next == base * growth * m
  {
    assert base * (m * growth) == base * growth * m;
  }

  lemma TargetIsPlanned(attempt: nat, p: RetryPolicy, retryAfterMs: Option<real>, maxRetryAfterMs: real)
    ensures Target(attempt, p, retryAfterMs, maxRetryAfterMs) == Planned(attempt, p, retryAfterMs, maxRetryAfterMs)
  {
    hide Pow;
    if attempt >= 1 {
      UncappedIsPower(attempt, p);
    } else {
      UncappedIsPower(1, p);
    }
  }

  function AtLeastZero(n: int): nat {
    if n < 0 then 0 else n
  }

  function ComputeBackoff(attempt: nat, p: RetryPolicy, retryAfterMs: Option<real>, maxRetryAfterMs: real,
    draw: real): nat {
    AtLeastZero(Round(Spread(Target(attempt, p, retryAfterMs, maxRetryAfterMs), JitterRatio(p), draw)))
  }

  /** The relative jitter of a draw stays between -1 and the jitter ratio, as it does for every draw in [0, 1]. */
  predicate WithinSwing(ratio: real, draw: real) {
    -1.0 <= Swing(ratio, draw) <= ratio
  }

  lemma UnitDrawWithinSwing(ratio: real, draw: real)
    requires 0.0 <= ratio <= 1.0 && 0.0 <= draw <= 1.0
    ensures WithinSwing(ratio, draw)
  {
    JitterSwing(ratio, draw);
    ProductNonNegative(ratio, 1.0 - (draw * 2.0 - 1.0));
    assert ratio * (1.0 - (draw * 2.0 - 1.0)) == ratio - Swing(ratio, draw);
  }

  lemma SpreadBounds(target: real, ratio: real, draw: real)
    requires WithinSwing(ratio, draw)
    ensures target >= 0.0 ==> Spread(target, ratio, draw) <= Scaled(target, 1.0 + ratio)
    ensures target < 0.0 ==> Spread(target, ratio, draw) <= 0.0
  {
    hide Swing, Spread;
    var swing := Swing(ratio, draw);
    SpreadIs(target, ratio, draw);
    if target >= 0.0 {
      ProductNonNegative(target, ratio - swing);
      assert target * (ratio - swing) == target * (1.0 + ratio) - target * (1.0 + swing);
    } else {
      ProductNonNegative(-target, 1.0 + swing);
      assert (-target) * (1.0 + swing) == -(target * (1.0 + swing));
    }
  }

  /** The rounded plan × (1 - jitter), or zero. */
  function WaitFloor(attempt: nat, p: RetryPolicy, retryAfterMs: Option<real>, maxRetryAfterMs: real): nat {
    AtLeastZero(Round(Scaled(Planned(attempt, p, retryAfterMs, maxRetryAfterMs), 1.0 - JitterRatio(p))))
  }

  /** The rounded plan × (1 + jitter), or zero. */
  function WaitBound(attempt: nat, p: RetryPolicy, retryAfterMs: Option<real>, maxRetryAfterMs: real): nat {
    AtLeastZero(Round(Scaled(Planned(attempt, p, retryAfterMs, maxRetryAfterMs), 1.0 + JitterRatio(p))))
  }

  /** Every wait is at most the rounded plan × (1 + jitter) for every draw within the swing. */
  lemma WaitBounded(attempt: nat, p: RetryPolicy, retryAfterMs: Option<real>, maxRetryAfterMs: real, draw: real)
    requires WithinSwing(JitterRatio(p), draw)
    ensures ComputeBackoff(attempt, p, retryAfterMs, maxRetryAfterMs, draw)
            <= WaitBound(attempt, p, retryAfterMs, maxRetryAfterMs)
  {
    hide Target, Planned, Spread, Scaled, JitterRatio, WithinSwing;
    var planned := Planned(attempt, p, retryAfterMs, maxRetryAfterMs);
    TargetIsPlanned(attempt, p, retryAfterMs, maxRetryAfterMs);
    JitterRatioWithin(p);
    SpreadBounds(planned, JitterRatio(p), draw);
    if planned >= 0.0 {
      RoundMonotone(Spread(planned, JitterRatio(p), draw), Scaled(planned, 1.0 + JitterRatio(p)));
    } else {
      RoundMonotone(Spread(planned, JitterRatio(p), draw), 0.0);
      RoundWhole(0);
    }
  }

  lemma JitterRatioWithin(p: RetryPolicy)
    ensures 0.0 <= JitterRatio(p) <= 1.0
  {
  }

  /** And at least the rounded plan × (1 - jitter), for every draw that is not negative. */
  lemma WaitAtLeast(attempt: nat, p: RetryPolicy, retryAfterMs: Option<real>, maxRetryAfterMs: real, draw: real)
    requires draw >= 0.0
    ensures ComputeBackoff(attempt, p, retryAfterMs, maxRetryAfterMs, draw)
            >= WaitFloor(attempt, p, retryAfterMs, maxRetryAfterMs)
  {
    hide Target, Planned, Spread, Scaled, JitterRatio;
    var planned, ratio := Planned(attempt, p, retryAfterMs, maxRetryAfterMs), JitterRatio(p);
    TargetIsPlanned(attempt, p, retryAfterMs, maxRetryAfterMs);
    JitterRatioWithin(p);
    if planned >= 0.0 {
      SpreadFollowsDraw(planned, ratio, 0.0, draw);
      SpreadEnds(planned, ratio);
      RoundMonotone(Scaled(planned, 1.0 - ratio), Spread(planned, ratio, draw));
    } else {
      ScaledNegative(planned, 1.0 - ratio);
      RoundMonotone(Scaled(planned, 1.0 - ratio), 0.0);
      RoundWhole(0);
    }
  }

  lemma ScaledNegative(delay: real, factor: real)
    requires delay <= 0.0 && factor >= 0.0
    ensures Scaled(delay, factor) <= 0.0
  {
    ProductNonNegative(-delay, factor);
    assert (-delay) * factor == -(delay * factor);
  }

  /**
   * Every wait follows the plan: without jitter, or for the middle draw, it is the plan, rounded;
   * for a draw of zero it is the least and for a draw of one the most that jitter allows, and it
   * grows with the draw.
   */
  lemma WaitFollowsPlan(attempt: nat, p: RetryPolicy, retryAfterMs: Option<real>, maxRetryAfterMs: real, low: real,
    high: real)
    requires low <= high
    ensures var planned := Planned(attempt, p, retryAfterMs, maxRetryAfterMs);
            var least, most := WaitFloor(attempt, p, retryAfterMs, maxRetryAfterMs),
              WaitBound(attempt, p, retryAfterMs, maxRetryAfterMs);
            && ComputeBackoff(attempt, p, retryAfterMs, maxRetryAfterMs, 0.5) == AtLeastZero(Round(planned))
            && ComputeBackoff(attempt, p, retryAfterMs, maxRetryAfterMs, 0.0) == least
            && ComputeBackoff(attempt, p, retryAfterMs, maxRetryAfterMs, 1.0) == most
            && (p.jitterRatio <= 0.0 ==>
                  ComputeBackoff(attempt, p, retryAfterMs, maxRetryAfterMs, low) == AtLeastZero(Round(planned)))
            && (planned >= 0.0 ==>
                  ComputeBackoff(attempt, p, retryAfterMs, maxRetryAfterMs, low)
                  <= ComputeBackoff(attempt, p, retryAfterMs, maxRetryAfterMs, high))
    ensures Nearest(JitterRatio(p), p.jitterRatio, Range(0.0, 1.0))
  {
    hide Target, Planned, Spread, Scaled, JitterRatio, Round;
    var planned, ratio := Planned(attempt, p, retryAfterMs, maxRetryAfterMs), JitterRatio(p);
    TargetIsPlanned(attempt, p, retryAfterMs, maxRetryAfterMs);
    JitterRatioReads(p);
    SpreadEnds(planned, ratio);
    if p.jitterRatio <= 0.0 { NoJitter(planned, low); }
    if planned >= 0.0 {
      SpreadFollowsDraw(planned, ratio, low, high);
      RoundMonotone(Spread(planned, ratio, low), Spread(planned, ratio, high));
    }
  }

  lemma NoJitter(delay: real, draw: real)
    ensures Spread(delay, 0.0, draw) == delay
  {
  }

  lemma JitterRatioReads(p: RetryPolicy)
    ensures Nearest(JitterRatio(p), p.jitterRatio, Range(0.0, 1.0))
    ensures JitterRatio(p) >= 0.0 && (p.jitterRatio <= 0.0 ==> JitterRatio(p) == 0.0)
  {
    ClampIsNearest(p.jitterRatio, Range(0.0, 1.0));
  }

  /**
   * The plan without a hint: the base delay first, up to the longest, and from then on the former
   * plan times the multiplier, up to the longest, if the multiplier does not shrink it.
   */
  lemma PlanRecurs(attempt: nat, p: RetryPolicy, maxRetryAfterMs: real)
    requires attempt >= 1
    ensures Planned(1, p, None, maxRetryAfterMs) == Min(p.baseDelayMs, p.maxDelayMs)
    ensures p.multiplier >= 1.0 && p.maxDelayMs >= 0.0 ==>
              Planned(attempt + 1, p, None, maxRetryAfterMs)
              == Min(Planned(attempt, p, None, maxRetryAfterMs) * p.multiplier, p.maxDelayMs)
  {
    if p.multiplier >= 1.0 && p.maxDelayMs >= 0.0 { GrowOnce(Uncapped(attempt, p), p.multiplier, p.maxDelayMs); }
  }

  /** With the client's own policy and no hint, the third failure is followed by a second, give or take 200 ms. */
  lemma DefaultThirdWait(maxRetryAfterMs: real)
    ensures ComputeBackoff(3, DEFAULT_REQUEST_POLICY, None, maxRetryAfterMs, 0.0) == 800
    ensures ComputeBackoff(3, DEFAULT_REQUEST_POLICY, None, maxRetryAfterMs, 0.5) == 1000
    ensures ComputeBackoff(3, DEFAULT_REQUEST_POLICY, None, maxRetryAfterMs, 1.0) == 1200
  {
    hide Round, Spread, Scaled;
    var p := DEFAULT_REQUEST_POLICY;
    WaitFollowsPlan(3, p, None, maxRetryAfterMs, 0.0, 1.0);
    assert Uncapped(2, p) == 500.0 && Uncapped(3, p) == 1000.0;
    assert Planned(3, p, None, maxRetryAfterMs) == 1000.0;
    ThirdScaled();
    RoundWhole(800);
    RoundWhole(1000);
    RoundWhole(1200);
  }

  lemma ThirdScaled()
    ensures Scaled(1000.0, 1.0 - 0.2) == 800.0 && Scaled(1000.0, 1.0 + 0.2) == 1200.0
  {
  }

  /** The bound, for one hint and one ceiling. */
  predicate HintBounded(p: RetryPolicy, maxMs: real, hintMs: real, draw: real) {
    ComputeBackoff(1, p, Some(hintMs), maxMs, draw) <= WaitBound(1, p, Some(hintMs), maxMs)
  }

  /**
   * The random source is not clamped here.  For a draw the bound holds, for every hint and
   * ceiling, exactly if the draw is within the swing: for every draw in [0, 1], and for no draw
   * above 1 unless there is no jitter.
   */
  lemma DrawBoundedExactly(p: RetryPolicy, draw: real)
    ensures (forall maxMs: real, hintMs: real :: HintBounded(p, maxMs, hintMs, draw)) <==>
      WithinSwing(JitterRatio(p), draw)
    ensures 0.0 <= draw <= 1.0 ==> WithinSwing(JitterRatio(p), draw)
    ensures draw > 1.0 ==> (WithinSwing(JitterRatio(p), draw) <==> JitterRatio(p) == 0.0)
  {
    hide HintBounded, WithinSwing;
    if WithinSwing(JitterRatio(p), draw) {
      forall maxMs: real, hintMs: real ensures HintBounded(p, maxMs, hintMs, draw) {
        HintWithinSwing(p, maxMs, hintMs, draw);
      }
    } else {
      var target := BeyondSwing(JitterRatio(p), draw);
      HintBeyondSwing(p, target, draw);
    }
    if 0.0 <= draw <= 1.0 { UnitDrawWithinSwing(JitterRatio(p), draw); }
    if draw > 1.0 { HighDraw(JitterRatio(p), draw); }
  }

  /** Such a draw: with a jitter of 0.2, a hint of 60 s and a draw of 2 wait 96 s, not at most 72 s. */
  lemma HighDrawExceedsBound(p: RetryPolicy)
    requires p.jitterRatio == DEFAULT_JITTER_RATIO
    ensures ComputeBackoff(1, p, Some(60000.0), DEFAULT_MAX_RETRY_AFTER_MS, 2.0) == 96000
    ensures WaitBound(1, p, Some(60000.0), DEFAULT_MAX_RETRY_AFTER_MS) == 72000
  {
    assert Spread(60000.0, 0.2, 2.0) == 96000.0;
    RoundWhole(96000);
    RoundWhole(72000);
  }

  lemma HintWithinSwing(p: RetryPolicy, maxMs: real, hintMs: real, draw: real)
    requires WithinSwing(JitterRatio(p), draw)
    ensures HintBounded(p, maxMs, hintMs, draw)
  {
    hide WithinSwing, ComputeBackoff, WaitBound;
    WaitBounded(1, p, Some(hintMs), maxMs, draw);
  }

  lemma HighDraw(ratio: real, draw: real)
    requires 0.0 <= ratio && draw > 1.0
    ensures WithinSwing(ratio, draw) <==> ratio == 0.0
  {
    if ratio > 0.0 {
      ScaledAbove(ratio, draw * 2.0 - 1.0);
    }
  }

  lemma ScaledAbove(a: real, t: real)
    requires a > 0.0 && t > 1.0
    ensures a * t > a
  {
    assert a * (t - 1.0) > 0.0;
    assert a * (t - 1.0) == a * t - a;
  }

  /** A target so large, one way or the other, that a swing too wide shows after rounding. */
  lemma BeyondSwing(ratio: real, draw: real) returns (target: real)
    requires 0.0 <= ratio <= 1.0 && !WithinSwing(ratio, draw)
    ensures AtLeastZero(Round(Spread(target, ratio, draw))) > AtLeastZero(Round(Scaled(target, 1.0 + ratio)))
  {
    hide Swing, Spread;
    var swing := Swing(ratio, draw);
    if swing > ratio {
      target := 2.0 / (swing - ratio);
      Reciprocal(2.0, swing - ratio);
      assert target * (1.0 + swing) == target * (1.0 + ratio) + target * (swing - ratio);
      ProductNonNegative(target, 1.0 + ratio);
      SpreadIs(target, ratio, draw);
      RoundsApart(target * (1.0 + ratio), Spread(target, ratio, draw));
    } else {
      var excess := -1.0 - swing;
      target := -(2.0 / excess);
      Reciprocal(2.0, excess);
      assert target * (1.0 + swing) == (-target) * excess;
      ProductNonNegative(-target, 1.0 + ratio);
      assert (-target) * (1.0 + ratio) == -(target * (1.0 + ratio));
      SpreadIs(target, ratio, draw);
      RoundsApart(0.0, Spread(target, ratio, draw));
      RoundMonotone(target * (1.0 + ratio), 0.0);
      RoundWhole(0);
    }
  }

  lemma Reciprocal(a: real, b: real)
    requires a > 0.0 && b > 0.0
    ensures a / b > 0.0 && (a / b) * b == a
  {
  }

  lemma RoundsApart(x: real, y: real)
    requires x >= 0.0 && y >= x + 2.0
    ensures AtLeastZero(Round(y)) > AtLeastZero(Round(x))
  {
    RoundNearest(x);
    RoundNearest(y);
    assert Round(y) as real > Round(x) as real;
  }

  lemma HintBeyondSwing(p: RetryPolicy, target: real, draw: real)
    requires AtLeastZero(Round(Spread(target, JitterRatio(p), draw)))
             > AtLeastZero(Round(Scaled(target, 1.0 + JitterRatio(p))))
    ensures exists maxMs: real, hintMs: real :: !HintBounded(p, maxMs, hintMs, draw)
  {
    hide Spread, Scaled, Round, Pow, JitterRatio;
    assert Target(1, p, Some(target), target) == target;
    assert !HintBounded(p, target, target, draw);
  }

  /** The longest hinted delay rounds to no more than the ceiling, for any draw below 1. */
  predicate CeilingAbsorbsJitter(maxMs: real, ratio: real) {
    && maxMs >= 0.0
    && if maxMs * ratio > 0.0 then maxMs * (1.0 + ratio) <= maxMs.Floor as real + 0.5
       else maxMs < maxMs.Floor as real + 0.5
  }

  /** A wait within the ceiling, for one hint and one draw. */
  predicate HintCapped(p: RetryPolicy, maxMs: real, hintMs: real, draw: real) {
    ComputeBackoff(1, p, Some(hintMs), maxMs, draw) as real <= maxMs
  }

  /**
   * "Never sleep longer than this, whatever `Retry-After` claims" holds exactly if the ceiling
   * absorbs the jitter: for a whole number of milliseconds, if ceiling × jitter is at most one half.
   */
  lemma RetryAfterCeilingExactly(p: RetryPolicy, maxMs: real)
    ensures (forall hintMs: real, draw: real :: 0.0 <= draw < 1.0 ==> HintCapped(p, maxMs, hintMs, draw))
            <==> CeilingAbsorbsJitter(maxMs, JitterRatio(p))
    ensures Integral(maxMs) && maxMs >= 0.0 ==>
      (CeilingAbsorbsJitter(maxMs, JitterRatio(p)) <==> maxMs * JitterRatio(p) <= 0.5)
  {
    hide HintCapped, CeilingAbsorbsJitter;
    if CeilingAbsorbsJitter(maxMs, JitterRatio(p)) {
      forall hintMs: real, draw: real | 0.0 <= draw < 1.0 ensures HintCapped(p, maxMs, hintMs, draw) {
        CeilingKept(p, maxMs, hintMs, draw);
      }
    } else {
      CeilingBroken(p, maxMs);
    }
    WholeCeiling(maxMs, JitterRatio(p));
  }

  /** With the client's own defaults, a ceiling of 60 s and a jitter of 0.2, a hint of 60 s may sleep for 69.6 s. */
  lemma DefaultCeilingExceeded(p: RetryPolicy)
    requires p.jitterRatio == DEFAULT_JITTER_RATIO
    ensures ComputeBackoff(1, p, Some(DEFAULT_MAX_RETRY_AFTER_MS), DEFAULT_MAX_RETRY_AFTER_MS, 0.9) == 69600
    ensures !CeilingAbsorbsJitter(DEFAULT_MAX_RETRY_AFTER_MS, JitterRatio(p))
  {
    assert Spread(60000.0, 0.2, 0.9) == 69600.0;
    RoundWhole(69600);
  }

  lemma WholeCeiling(maxMs: real, ratio: real)
    ensures Integral(maxMs) && maxMs >= 0.0 && ratio >= 0.0 ==>
      (CeilingAbsorbsJitter(maxMs, ratio) <==> maxMs * ratio <= 0.5)
  {
    assert maxMs * (1.0 + ratio) == maxMs + maxMs * ratio;
  }

  lemma RoundAtMost(x: real, m: real)
    requires m >= 0.0 && x < m.Floor as real + 0.5
    ensures AtLeastZero(Round(x)) as real <= m
  {
    RoundNearest(x);
    assert Round(x) as real < (m.Floor + 1) as real;
    assert Round(x) <= m.Floor;
  }

  lemma CeilingKept(p: RetryPolicy, maxMs: real, hintMs: real, draw: real)
    requires CeilingAbsorbsJitter(maxMs, JitterRatio(p)) && 0.0 <= draw < 1.0
    ensures HintCapped(p, maxMs, hintMs, draw)
  {
    hide Pow, Spread;
    var ratio, target := JitterRatio(p), Min(hintMs, maxMs);
    SpreadBelow(target, maxMs, ratio, draw);
    RoundAtMost(Spread(target, ratio, draw), maxMs);
  }

  lemma SpreadBelow(target: real, maxMs: real, ratio: real, draw: real)
    requires CeilingAbsorbsJitter(maxMs, ratio) && 0.0 <= ratio <= 1.0 && 0.0 <= draw < 1.0 && target <= maxMs
    ensures Spread(target, ratio, draw) < maxMs.Floor as real + 0.5
  {
    hide Spread;
    SpreadMonotone(target, maxMs, ratio, draw);
    SpreadStrict(maxMs, ratio, draw);
  }

  /** A draw below 1 stays strictly below the full swing. */
  lemma SpreadStrict(maxMs: real, ratio: real, draw: real)
    requires maxMs >= 0.0 && 0.0 <= ratio <= 1.0 && 0.0 <= draw < 1.0
    ensures if maxMs * ratio > 0.0 then Spread(maxMs, ratio, draw) < maxMs * (1.0 + ratio)
      else Spread(maxMs, ratio, draw) == maxMs
  {
    var t := draw * 2.0 - 1.0;
    var product := maxMs * ratio;
    ProductNonNegative(maxMs, ratio);
    assert Spread(maxMs, ratio, draw) == maxMs + product * t;
    assert maxMs * (1.0 + ratio) == maxMs + product;
    if product > 0.0 { ScaledBelow(product, t); }
  }

  lemma ScaledBelow(a: real, t: real)
    requires a > 0.0 && t < 1.0
    ensures a * t < a
  {
    assert a * (1.0 - t) > 0.0;
    assert a * (1.0 - t) == a - a * t;
  }

  lemma CeilingBroken(p: RetryPolicy, maxMs: real)
    requires !CeilingAbsorbsJitter(maxMs, JitterRatio(p))
    ensures exists hintMs: real, draw: real :: 0.0 <= draw < 1.0 && !HintCapped(p, maxMs, hintMs, draw)
  {
    hide Pow;
    var ratio := JitterRatio(p);
    if maxMs < 0.0 {
      assert !HintCapped(p, maxMs, maxMs, 0.5);
    } else if maxMs * ratio > 0.0 {
      var draw := BreakingDraw(maxMs, ratio);
      RoundAbove(Spread(maxMs, ratio, draw), maxMs);
      assert !HintCapped(p, maxMs, maxMs, draw);
    } else {
      SpreadIs(maxMs, ratio, 0.5);
      RoundAbove(Spread(maxMs, ratio, 0.5), maxMs);
      assert !HintCapped(p, maxMs, maxMs, 0.5);
    }
  }

  lemma RoundAbove(x: real, m: real)
    requires m >= 0.0 && x >= m.Floor as real + 0.5
    ensures AtLeastZero(Round(x)) as real > m
  {
    assert Round(x) >= m.Floor + 1;
  }

  /** A draw close enough to 1 that the spread reaches the rounding point. */
  lemma BreakingDraw(maxMs: real, ratio: real) returns (draw: real)
    requires maxMs >= 0.0 && 0.0 <= ratio <= 1.0 && maxMs * ratio > 0.0
    requires maxMs * (1.0 + ratio) > maxMs.Floor as real + 0.5
    ensures 0.0 <= draw < 1.0 && Spread(maxMs, ratio, draw) >= maxMs.Floor as real + 0.5
  {
    var product, edge := maxMs * ratio, maxMs.Floor as real + 0.5;
    assert maxMs * (1.0 + ratio) == maxMs + product;
    var excess := maxMs + product - edge;
    SpreadIs(maxMs, ratio, 0.5);
    if maxMs >= edge {
      draw := 0.5;
    } else {
      draw := 1.0 - excess / (2.0 * product);
      HalfExcess(product, excess);
      var t := draw * 2.0 - 1.0;
      assert maxMs + maxMs * ratio * t == maxMs + product * t;
    }
  }

  lemma HalfExcess(product: real, excess: real)
    requires product > 0.0 && 0.0 < excess < product
    ensures var draw := 1.0 - excess / (2.0 * product);
            0.5 <= draw < 1.0 && product * (draw * 2.0 - 1.0) == product - excess
  {
    var q := excess / (2.0 * product);
    assert q * (2.0 * product) == excess;
    assert q > 0.0 && q <= 0.5;
    assert product * ((1.0 - q) * 2.0 - 1.0) == product - q * (2.0 * product);
  }
}

/** One logical request: the retry loop of the API client (packages/api-client/src/client.ts). */
module RequestLoop {
  import opened Basics
  import opened RetryPolicies
  import opened RequestTiming
  import TokenProtocol

  /** What a fetch comes to: an exception, or a response with the parts the loop looks at. */
  datatype Response =
    | TransportFailed(aborted: bool, timedOut: bool)
    | Http(status: int, retryAfterMs: Option<real>, envelopeSeconds: Option<real>)

  datatype Spec = Spec(
    mutating: bool,
    anonymous: bool,
    requestId: Option<string>,
    idempotencyKey: Option<string>,
    policy: RetryPolicy,
    maxRetryAfterMs: real,
    canRefresh: bool
  )

  /** The outside world, an adversary: its answer to each fetch, and to what comes before and after it. */
  datatype World = World(
    generateRequestId: nat -> string,
    generateIdempotencyKey: nat -> string,
    token: nat -> Option<TokenProtocol.Token>,
    fetch: (nat, Headers) -> Response,
    refresh: (nat, Option<TokenProtocol.Token>) -> Option<TokenProtocol.Token>,
    random: nat -> real
  )

  datatype Headers = Headers(
    requestId: string,
    idempotencyKey: Option<string>,
    attempt: nat,
    token: Option<TokenProtocol.Token>
  )

  datatype Outcome = Parsed | Aborted | Unreachable(timedOut: bool) | Rejected(status: int)

  /** What the loop does after a fetch. */
  datatype Next = Sleep(ms: nat) | Refreshed | Finish(outcome: Outcome, authenticationLost: bool)

  datatype Exchange = Exchange(sent: Headers, response: Response, refreshCalled: bool, next: Next)

  predicate IsOk(status: int) {
    200 <= status < 300
  }

  predicate IsRetryable(status: int) {
    status == 408 || status == 425 || status == 429 || status >= 500
  }

  /** The header's hint first, then the envelope's own. */
  function Hint(response: Response): Option<real>
    requires response.Http?
  {
    if response.retryAfterMs.Some? then response.retryAfterMs
    else if response.envelopeSeconds.Some? then Some(response.envelopeSeconds.value * 1000.0)
    else None
  }

  /** The first whole attempt number that is not below `maxAttempts`. */
  function Limit(spec: Spec): int {
    var m := spec.policy.maxAttempts;
    if Integral(m) then m.Floor else m.Floor + 1
  }

  lemma LimitIsCeiling(spec: Spec, attempt: int)
    ensures attempt as real < spec.policy.maxAttempts <==> attempt < Limit(spec)
  {
  }

  /** Decided once, before the loop. */
  function Identity(spec: Spec, w: World): (string, Option<string>) {
    (if spec.requestId.Some? then spec.requestId.value else w.generateRequestId(0),
     if !spec.mutating then None
     else if spec.idempotencyKey.Some? then spec.idempotencyKey
     else Some(w.generateIdempotencyKey(0)))
  }

  function Backoff(spec: Spec, w: World, k: nat, attempt: nat, hint: Option<real>): nat {
    ComputeBackoff(attempt, spec.policy, hint, spec.maxRetryAfterMs, w.random(k))
  }

  function SentAt(spec: Spec, w: World, k: nat, attempt: nat): Headers {
    var id := Identity(spec, w);
    Headers(id.0, id.1, attempt, if spec.anonymous then None else w.token(k))
  }

  predicate CallsRefresh(spec: Spec, response: Response, authRetryUsed: bool) {
    response.Http? && response.status == 401 && !spec.anonymous && !authRetryUsed && spec.canRefresh
  }

  /** The `k`th exchange, given the attempt number and whether the one refresh has been used. */
  function ExchangeAt(spec: Spec, w: World, k: nat, attempt: nat, authRetryUsed: bool): Exchange {
    var sent := SentAt(spec, w, k, attempt);
    var response := w.fetch(k, sent);
    var refreshCalled := CallsRefresh(spec, response, authRetryUsed);
    var retriesLeft := attempt as real < spec.policy.maxAttempts;
    var next :=
      match response
      case TransportFailed(aborted, timedOut) =>
        if aborted then Finish(Aborted, false)
        else if retriesLeft then Sleep(Backoff(spec, w, k, attempt, None))
        else Finish(Unreachable(timedOut), false)
      case Http(status, _, _) =>
        if refreshCalled && w.refresh(k, sent.token).Some? then Refreshed
        else if IsOk(status) then Finish(Parsed, false)
        else if IsRetryable(status) && retriesLeft then Sleep(Backoff(spec, w, k, attempt, Hint(response)))
        else Finish(Rejected(status), status == 401);
    Exchange(sent, response, refreshCalled, next)
  }

  /** The exchanges from the `k`th on. */
  function Exchanges(spec: Spec, w: World, k: nat, attempt: nat, authRetryUsed: bool): (xs: seq<Exchange>)
    ensures |xs| >= 1
    decreases if authRetryUsed then 0 else 1, Limit(spec) - attempt
  {
    LimitIsCeiling(spec, attempt);
    var x := ExchangeAt(spec, w, k, attempt, authRetryUsed);
    [x]
    + match x.next
      case Sleep(_) => Exchanges(spec, w, k + 1, attempt + 1, authRetryUsed || x.refreshCalled)
      case Refreshed => Exchanges(spec, w, k + 1, attempt, true)
      case Finish(_, _) => []
  }

  /** One turn of the loop moves one exchange from what is left into the trace. */
  lemma TurnAdds(spec: Spec, w: World, trace: seq<Exchange>, attempt: nat, authRetryUsed: bool)
    ensures var x := ExchangeAt(spec, w, |trace|, attempt, authRetryUsed);
            var all := trace + Exchanges(spec, w, |trace|, attempt, authRetryUsed);
            && (x.next.Sleep? ==>
                  && attempt < Limit(spec)
                  && all == (trace + [x])
                    + Exchanges(spec, w, |trace| + 1, attempt + 1, authRetryUsed || x.refreshCalled))
            && (x.next.Refreshed? ==>
                  !authRetryUsed && all == (trace + [x]) + Exchanges(spec, w, |trace| + 1, attempt, true))
            && (x.next.Finish? ==> all == trace + [x])
  {
    hide ExchangeAt, Limit, Exchanges;
    ExchangeLimits(spec, w, |trace|, attempt, authRetryUsed);
    Unfolds(spec, w, |trace|, attempt, authRetryUsed);
    var x := ExchangeAt(spec, w, |trace|, attempt, authRetryUsed);
    if x.next.Sleep? {
      Regroup(trace, x, Exchanges(spec, w, |trace| + 1, attempt + 1, authRetryUsed || x.refreshCalled));
    } else if x.next.Refreshed? {
      Regroup(trace, x, Exchanges(spec, w, |trace| + 1, attempt, true));
    }
  }

  lemma Regroup<T>(a: seq<T>, x: T, b: seq<T>)
    ensures a + ([x] + b) == (a + [x]) + b
  {
  }

  lemma Unfolds(spec: Spec, w: World, k: nat, attempt: nat, authRetryUsed: bool)
    ensures var x := ExchangeAt(spec, w, k, attempt, authRetryUsed);
            var all := Exchanges(spec, w, k, attempt, authRetryUsed);
            && (x.next.Sleep? ==> all == [x] + Exchanges(spec, w, k + 1, attempt + 1, authRetryUsed || x.refreshCalled))
            && (x.next.Refreshed? ==> all == [x] + Exchanges(spec, w, k + 1, attempt, true))
            && (x.next.Finish? ==> all == [x])
  {
    hide ExchangeAt, Limit;
  }

  /** The loop as the source writes it, with the trace of what it did. */
  method Request(spec: Spec, w: World) returns (outcome: Outcome, trace: seq<Exchange>)
    ensures trace == Exchanges(spec, w, 0, 1, false)
    ensures trace[|trace| - 1].next.Finish? && outcome == trace[|trace| - 1].next.outcome
  {
    hide Backoff, IsRetryable, IsOk, Hint, Limit, Exchanges, Identity;
    var (requestId, idempotencyKey) := Identity(spec, w);
    var attempt, authRetryUsed := 0, false;
    trace := [];
    while true
      invariant trace + Exchanges(spec, w, |trace|, attempt + 1, authRetryUsed) == Exchanges(spec, w, 0, 1, false)
      decreases if authRetryUsed then 0 else 1, Limit(spec) - attempt
    {
      attempt := attempt + 1;
      TurnAdds(spec, w, trace, attempt, authRetryUsed);
      var k := |trace|;
      ghost var x := ExchangeAt(spec, w, k, attempt, authRetryUsed);
      var token := if spec.anonymous then None else w.token(k);
      var headers := Headers(requestId, idempotencyKey, attempt, token);
      var response := w.fetch(k, headers);
      var refreshCalled := false;

      if response.TransportFailed? {
        if response.aborted {
          outcome := Aborted;
          trace := trace + [Exchange(headers, response, false, Finish(Aborted, false))];
          return;
        }
        if attempt as real < spec.policy.maxAttempts {
          trace := trace + [Exchange(headers, response, false, Sleep(Backoff(spec, w, k, attempt, None)))];
          continue;
        }
        outcome := Unreachable(response.timedOut);
        trace := trace + [Exchange(headers, response, false, Finish(outcome, false))];
        return;
      }

      if response.status == 401 && !spec.anonymous && !authRetryUsed && spec.canRefresh {
        authRetryUsed, refreshCalled := true, true;
        var refreshed := w.refresh(k, token);
        if refreshed.Some? {
          attempt := attempt - 1;
          trace := trace + [Exchange(headers, response, true, Refreshed)];
          continue;
        }
      }

      if !IsOk(response.status) {
        if IsRetryable(response.status) && attempt as real < spec.policy.maxAttempts {
          trace := trace + [Exchange(headers, response, refreshCalled,
            Sleep(Backoff(spec, w, k, attempt, Hint(response))))];
          continue;
        }
        outcome := Rejected(response.status);
        trace := trace + [Exchange(headers, response, refreshCalled, Finish(outcome, response.status == 401))];
        return;
      }

      outcome := Parsed;
      trace := trace + [Exchange(headers, response, refreshCalled, Finish(Parsed, false))];
      return;
    }
  }

  // ---- every run of the loop ---------------------------------------------

  function AtLeastOne(n: int): nat {
    if n < 1 then 1 else n
  }

  lemma {:induction false} FetchesFrom(spec: Spec, w: World, k: nat, attempt: nat, authRetryUsed: bool)
    requires attempt >= 1
    ensures |Exchanges(spec, w, k, attempt, authRetryUsed)|
            <= AtLeastOne(Limit(spec) - attempt + 1) + (if authRetryUsed then 0 else 1)
    decreases if authRetryUsed then 0 else 1, Limit(spec) - attempt
  {
    hide Backoff, IsRetryable, IsOk, Hint, Limit, SentAt;
    LimitIsCeiling(spec, attempt);
    var x := ExchangeAt(spec, w, k, attempt, authRetryUsed);
    match x.next
    case Sleep(_) => FetchesFrom(spec, w, k + 1, attempt + 1, authRetryUsed || x.refreshCalled);
    case Refreshed => FetchesFrom(spec, w, k + 1, attempt, true);
    case Finish(_, _) =>
  }

  /** For any behaviour of the world: at most max(1, maxAttempts) + 1 fetches. */
  lemma FetchesBounded(spec: Spec, w: World)
    ensures |Exchanges(spec, w, 0, 1, false)| <= AtLeastOne(Limit(spec)) + 1
    ensures Integral(spec.policy.maxAttempts) ==> Limit(spec) as real == spec.policy.maxAttempts
  {
    FetchesFrom(spec, w, 0, 1, false);
  }

  function RefreshCalls(xs: seq<Exchange>): nat {
    if xs == [] then 0 else (if xs[0].refreshCalled then 1 else 0) + RefreshCalls(xs[1..])
  }

  /** And at most one refresh. */
  lemma {:induction false} RefreshedAtMostOnce(spec: Spec, w: World, k: nat, attempt: nat, authRetryUsed: bool)
    ensures RefreshCalls(Exchanges(spec, w, k, attempt, authRetryUsed)) <= if authRetryUsed then 0 else 1
    decreases if authRetryUsed then 0 else 1, Limit(spec) - attempt
  {
    hide Backoff, IsRetryable, IsOk, Hint, Limit, SentAt;
    LimitIsCeiling(spec, attempt);
    var xs, x := Exchanges(spec, w, k, attempt, authRetryUsed), ExchangeAt(spec, w, k, attempt, authRetryUsed);
    match x.next
    case Sleep(_) =>
      var rest := Exchanges(spec, w, k + 1, attempt + 1, authRetryUsed || x.refreshCalled);
      RefreshedAtMostOnce(spec, w, k + 1, attempt + 1, authRetryUsed || x.refreshCalled);
      assert xs[1..] == rest;
    case Refreshed =>
      RefreshedAtMostOnce(spec, w, k + 1, attempt, true);
      assert xs[1..] == Exchanges(spec, w, k + 1, attempt, true);
    case Finish(_, _) =>
      assert xs[1..] == [];
  }

  /** The request id and idempotency key given, or else the first ones generated; a key only for mutations. */
  predicate SameIdentity(spec: Spec, w: World, x: Exchange) {
    && (match spec.requestId
        case Some(id) => x.sent.requestId == id
        case None => x.sent.requestId == w.generateRequestId(0))
    && (match (spec.mutating, spec.idempotencyKey)
        case (false, _) => x.sent.idempotencyKey == None
        case (true, Some(key)) => x.sent.idempotencyKey == Some(key)
        case (true, None) => x.sent.idempotencyKey == Some(w.generateIdempotencyKey(0)))
  }

  /** The world's own answer to what was sent; a retry only while attempts are left, and a refresh only if it came. */
  predicate Answered(spec: Spec, w: World, k: nat, x: Exchange) {
    && x.sent.token == (if spec.anonymous then None else w.token(k))
    && x.response == w.fetch(k, x.sent)
    && (x.next.Sleep? ==> x.sent.attempt as real < spec.policy.maxAttempts)
    && (x.next.Refreshed? <==> x.refreshCalled && w.refresh(k, x.sent.token).Some?)
  }

  /** What a wait may be: the rounded plan × (1 - jitter) to the rounded plan × (1 + jitter). */
  predicate WaitOk(spec: Spec, w: World, k: nat, x: Exchange) {
    x.next.Sleep? ==>
      var hint := HintOf(x.response);
      && (w.random(k) >= 0.0 ==>
            x.next.ms >= WaitFloor(x.sent.attempt, spec.policy, hint, spec.maxRetryAfterMs))
      && (WithinSwing(JitterRatio(spec.policy), w.random(k)) ==>
            x.next.ms <= WaitBound(x.sent.attempt, spec.policy, hint, spec.maxRetryAfterMs))
  }

  /** The hint in force: the header's, or without one the envelope's, which is in seconds. */
  function HintOf(response: Response): Option<real> {
    match response
    case Http(_, Some(headerMs), _) => Some(headerMs)
    case Http(_, None, Some(seconds)) => Some(seconds * 1000.0)
    case _ => None
  }

  /** Request Timeout, Too Early, Too Many Requests, and the server's own errors. */
  predicate MayPass(status: int) {
    status == 408 || status == 425 || status == 429 || 500 <= status
  }

  /** Only failures that may pass are tried again; the last answer decides the outcome. */
  predicate Justified(x: Exchange) {
    match x.next
    case Sleep(_) => if x.response.Http? then MayPass(x.response.status) else !x.response.aborted
    case Refreshed => x.refreshCalled && x.response.Http? && x.response.status == 401
    case Finish(outcome, lost) =>
      && (outcome.Parsed? <==> x.response.Http? && 200 <= x.response.status <= 299)
      && (outcome.Aborted? <==> x.response.TransportFailed? && x.response.aborted)
      && (outcome.Rejected? ==> x.response.Http? && outcome.status == x.response.status)
      && (outcome.Unreachable? ==> x.response.TransportFailed? && outcome.timedOut == x.response.timedOut)
      && (lost <==> x.response.Http? && x.response.status == 401)
  }

  lemma ExchangeFacts(spec: Spec, w: World, k: nat, attempt: nat, authRetryUsed: bool)
    ensures var x := ExchangeAt(spec, w, k, attempt, authRetryUsed);
            SoundExchange(spec, w, k, x) && x.sent.attempt == attempt
  {
    hide WaitBound, WaitFloor, JitterRatio, ComputeBackoff, WithinSwing;
    var x := ExchangeAt(spec, w, k, attempt, authRetryUsed);
    if x.next.Sleep? && WithinSwing(JitterRatio(spec.policy), w.random(k)) {
      WaitBounded(attempt, spec.policy, HintOf(x.response), spec.maxRetryAfterMs, w.random(k));
    }
    if x.next.Sleep? && w.random(k) >= 0.0 {
      WaitAtLeast(attempt, spec.policy, HintOf(x.response), spec.maxRetryAfterMs, w.random(k));
    }
  }

  predicate SoundExchange(spec: Spec, w: World, k: nat, x: Exchange) {
    SameIdentity(spec, w, x) && Answered(spec, w, k, x) && WaitOk(spec, w, k, x) && Justified(x)
  }

  /** Everything that holds of each exchange of a run from the `k`th on, and of its numbering. */
  ghost predicate WellRun(spec: Spec, w: World, k: nat, xs: seq<Exchange>) {
    && (forall i :: 0 <= i < |xs| ==> SoundExchange(spec, w, k + i, xs[i]))
    && (forall i :: 0 <= i < |xs| ==> (xs[i].next.Finish? <==> i == |xs| - 1))
    && (forall i :: 0 <= i < |xs| - 1 ==> Follows(xs[i], xs[i + 1]))
  }

  /** The attempt number counts up by one for each retry and stands still for the refresh. */
  predicate Follows(x: Exchange, y: Exchange) {
    y.sent.attempt == x.sent.attempt + if x.next.Sleep? then 1 else 0
  }

  lemma WellRunGrows(spec: Spec, w: World, k: nat, x: Exchange, rest: seq<Exchange>)
    requires SoundExchange(spec, w, k, x) && !x.next.Finish?
    requires rest != [] && WellRun(spec, w, k + 1, rest) && Follows(x, rest[0])
    ensures WellRun(spec, w, k, [x] + rest)
  {
    hide SoundExchange, Follows;
    var xs := [x] + rest;
    forall i | 0 <= i < |xs|
      ensures SoundExchange(spec, w, k + i, xs[i])
      ensures xs[i].next.Finish? <==> i == |xs| - 1
    {
      if i > 0 { assert xs[i] == rest[i - 1] && k + i == k + 1 + (i - 1); }
    }
    forall i | 0 <= i < |xs| - 1 ensures Follows(xs[i], xs[i + 1]) {
      if i > 0 { assert xs[i] == rest[i - 1] && xs[i + 1] == rest[i]; }
    }
  }

  lemma {:induction false} RunsWellFrom(spec: Spec, w: World, k: nat, attempt: nat, authRetryUsed: bool)
    ensures var xs := Exchanges(spec, w, k, attempt, authRetryUsed);
            WellRun(spec, w, k, xs) && xs[0].sent.attempt == attempt
    decreases if authRetryUsed then 0 else 1, Limit(spec) - attempt
  {
    hide SoundExchange, ExchangeAt, Limit, WellRun, Exchanges;
    Unfolds(spec, w, k, attempt, authRetryUsed);
    ExchangeFacts(spec, w, k, attempt, authRetryUsed);
    ExchangeLimits(spec, w, k, attempt, authRetryUsed);
    var x := ExchangeAt(spec, w, k, attempt, authRetryUsed);
    if x.next.Sleep? {
      RunsWellFrom(spec, w, k + 1, attempt + 1, authRetryUsed || x.refreshCalled);
      WellRunGrows(spec, w, k, x, Exchanges(spec, w, k + 1, attempt + 1, authRetryUsed || x.refreshCalled));
    } else if x.next.Refreshed? {
      RunsWellFrom(spec, w, k + 1, attempt, true);
      WellRunGrows(spec, w, k, x, Exchanges(spec, w, k + 1, attempt, true));
    } else {
      LastRunsWell(spec, w, k, x);
    }
  }

  lemma LastRunsWell(spec: Spec, w: World, k: nat, x: Exchange)
    requires SoundExchange(spec, w, k, x) && x.next.Finish?
    ensures WellRun(spec, w, k, [x])
  {
    hide SoundExchange;
  }

  lemma ExchangeLimits(spec: Spec, w: World, k: nat, attempt: nat, authRetryUsed: bool)
    ensures var x := ExchangeAt(spec, w, k, attempt, authRetryUsed);
            && (x.next.Sleep? ==> attempt < Limit(spec))
            && (x.next.Refreshed? ==> !authRetryUsed)
            && (x.refreshCalled ==> !authRetryUsed)
  {
    hide Backoff, IsRetryable, IsOk, Hint, Limit, SentAt;
    LimitIsCeiling(spec, attempt);
  }

  /**
   * On every run: the same identity throughout, every wait whose draw is within the swing within
   * its bound, only passing failures retried, the attempt header counting up by one for each retry
   * and standing still for the refresh, and the outcome decided by the last answer.
   */
  lemma RequestRunsWell(spec: Spec, w: World)
    ensures WellRun(spec, w, 0, Exchanges(spec, w, 0, 1, false))
    ensures RefreshCalls(Exchanges(spec, w, 0, 1, false)) <= 1
    ensures Exchanges(spec, w, 0, 1, false)[0].sent.attempt == 1
  {
    hide WellRun;
    RunsWellFrom(spec, w, 0, 1, false);
    RefreshedAtMostOnce(spec, w, 0, 1, false);
  }

  // ---- it does not give up early -----------------------------------------

  /** A failure is final only if it cannot pass, or no attempt is left. */
  predicate GivesUpRightly(spec: Spec, x: Exchange) {
    x.next.Finish? && !x.next.outcome.Parsed? && !x.next.outcome.Aborted? ==>
      || x.sent.attempt as real >= spec.policy.maxAttempts
      || (x.response.Http? && !MayPass(x.response.status))
  }

  /** Before the first refresh, an unauthorized answer is met with one, if the client can. */
  ghost predicate RefreshesFirst(spec: Spec, xs: seq<Exchange>) {
    forall i :: 0 <= i < |xs| && Refused(spec, xs[i].response) && NotYetRefreshed(xs, i) ==> xs[i].refreshCalled
  }

  /** The token was refused, and there is a way to get another. */
  predicate Refused(spec: Spec, response: Response) {
    response.Http? && response.status == 401 && !spec.anonymous && spec.canRefresh
  }

  ghost predicate NotYetRefreshed(xs: seq<Exchange>, i: nat)
    requires i <= |xs|
  {
    forall j :: 0 <= j < i ==> !xs[j].refreshCalled
  }

  lemma RefreshesFirstGrows(spec: Spec, x: Exchange, rest: seq<Exchange>)
    requires RefreshesFirst(spec, [x]) && (x.refreshCalled || RefreshesFirst(spec, rest))
    ensures RefreshesFirst(spec, [x] + rest)
  {
    var xs := [x] + rest;
    forall i | 0 <= i < |xs| && Refused(spec, xs[i].response) && NotYetRefreshed(xs, i)
      ensures xs[i].refreshCalled
    {
      if i == 0 {
        assert [x][0] == xs[0];
      } else {
        assert !xs[0].refreshCalled && rest[i - 1] == xs[i];
        forall j | 0 <= j < i - 1 ensures !rest[j].refreshCalled { assert rest[j] == xs[j + 1]; }
      }
    }
  }

  lemma ExchangePersists(spec: Spec, w: World, k: nat, attempt: nat)
    ensures GivesUpRightly(spec, ExchangeAt(spec, w, k, attempt, false))
    ensures GivesUpRightly(spec, ExchangeAt(spec, w, k, attempt, true))
    ensures RefreshesFirst(spec, [ExchangeAt(spec, w, k, attempt, false)])
  {
    hide Backoff, Hint, Identity;
  }

  lemma {:induction false} PersistsFrom(spec: Spec, w: World, k: nat, attempt: nat, authRetryUsed: bool)
    ensures var xs := Exchanges(spec, w, k, attempt, authRetryUsed);
            GivesUpRightly(spec, xs[|xs| - 1]) && (!authRetryUsed ==> RefreshesFirst(spec, xs))
    decreases if authRetryUsed then 0 else 1, Limit(spec) - attempt
  {
    hide GivesUpRightly, RefreshesFirst, ExchangeAt, Limit, Exchanges;
    ExchangePersists(spec, w, k, attempt);
    ExchangeLimits(spec, w, k, attempt, authRetryUsed);
    Unfolds(spec, w, k, attempt, authRetryUsed);
    var x := ExchangeAt(spec, w, k, attempt, authRetryUsed);
    if x.next.Sleep? {
      PersistsFrom(spec, w, k + 1, attempt + 1, authRetryUsed || x.refreshCalled);
      if !authRetryUsed { RefreshesFirstGrows(spec, x, Exchanges(spec, w, k + 1, attempt + 1, x.refreshCalled)); }
    } else if x.next.Refreshed? {
      PersistsFrom(spec, w, k + 1, attempt, true);
      RefreshedWasCalled(spec, w, k, attempt, authRetryUsed);
      RefreshesFirstGrows(spec, x, Exchanges(spec, w, k + 1, attempt, true));
    }
  }

  lemma RefreshedWasCalled(spec: Spec, w: World, k: nat, attempt: nat, authRetryUsed: bool)
    ensures var x := ExchangeAt(spec, w, k, attempt, authRetryUsed); x.next.Refreshed? ==> x.refreshCalled
  {
    hide Backoff, IsRetryable, Hint, Identity;
  }

  /**
   * The loop gives up only on a failure that cannot pass or when its attempts are used up, and
   * always tries a refresh before it reports a 401, if it can.
   */
  lemma NeverGivesUpEarly(spec: Spec, w: World)
    ensures var xs := Exchanges(spec, w, 0, 1, false);
            GivesUpRightly(spec, xs[|xs| - 1]) && RefreshesFirst(spec, xs)
  {
    PersistsFrom(spec, w, 0, 1, false);
  }
}
