/** Battery banding with hysteresis (packages/location-core/src/state-machine.ts). */
module Battery {
  import opened Basics
  import opened Limits

  datatype BatteryTier = Normal | Low | Critical

  const LOW_THRESHOLD := 0.2
  const CRITICAL_THRESHOLD := 0.1

  /** The clamped value of a usable reading; an unknown or non-finite level is no reading. */
  function Reading(level: Option<Num>): Option<real> {
    match level
    case Some(Finite(v)) => Some(Min(1.0, Max(0.0, v)))
    case _ => None
  }

  function NextBatteryTier(current: BatteryTier, level: Option<Num>): BatteryTier {
    match Reading(level)
    case None => current
    case Some(value) =>
      var leaveCritical := CRITICAL_THRESHOLD + RECOVERY_MARGIN;
      var leaveLow := LOW_THRESHOLD + RECOVERY_MARGIN;
      match current
      case Critical => if value >= leaveLow then Normal else if value >= leaveCritical then Low else Critical
      case Low => if value <= CRITICAL_THRESHOLD then Critical else if value >= leaveLow then Normal else Low
      case Normal => if value <= CRITICAL_THRESHOLD then Critical else if value <= LOW_THRESHOLD then Low else Normal
  }

  /** Low Power Mode floors the band at Low, after hysteresis. */
  function EffectiveBatteryTier(tier: BatteryTier, isLowPowerMode: bool): BatteryTier {
    if !isLowPowerMode then tier else if tier == Normal then Low else tier
  }

  function FoldTier(tier: BatteryTier, levels: seq<Option<Num>>): BatteryTier
    decreases |levels|
  {
    if levels == [] then tier else FoldTier(NextBatteryTier(tier, levels[0]), levels[1..])
  }

  // ---- the tier from the log of levels -----------------------------------

  /** A latch: set at or below `low`, released at or above `high`, and otherwise as the last such level left it. */
  function Latched(start: bool, levels: seq<Option<Num>>, low: real, high: real): bool {
    if levels == [] then start
    else
      match levels[|levels| - 1]
      case Some(Finite(v)) =>
        if v <= low then true else if v >= high then false else Latched(start, levels[..|levels| - 1], low, high)
      case _ => Latched(start, levels[..|levels| - 1], low, high)
  }

  lemma {:induction false} FoldLast(tier: BatteryTier, levels: seq<Option<Num>>)
    requires levels != []
    ensures FoldTier(tier, levels)
            == NextBatteryTier(FoldTier(tier, levels[..|levels| - 1]), levels[|levels| - 1])
    decreases |levels|
  {
    if |levels| == 1 {
      assert levels[1..] == [] && levels[..0] == [];
    } else {
      var n := |levels| - 1;
      FoldLast(NextBatteryTier(tier, levels[0]), levels[1..]);
      assert levels[..n][0] == levels[0] && levels[..n][1..] == levels[1..][..n - 1];
    }
  }

  /** The three tiers are two latches: one set at 10% and released at 15%, the other at 20% and 25%. */
  lemma {:induction false} TierIsTwoLatches(tier: BatteryTier, levels: seq<Option<Num>>)
    ensures FoldTier(tier, levels) == Critical <==> Latched(tier == Critical, levels, 0.1, 0.15)
    ensures FoldTier(tier, levels) != Normal <==> Latched(tier != Normal, levels, 0.2, 0.25)
    decreases |levels|
  {
    if levels != [] {
      FoldLast(tier, levels);
      TierIsTwoLatches(tier, levels[..|levels| - 1]);
    }
  }

  // ---- hysteresis over whole sequences of levels -------------------------

  datatype Direction = Unmoved | Up | Down

  function Charge(tier: BatteryTier): int {
    match tier
    case Critical => 0
    case Low => 1
    case Normal => 2
  }

  function Move(dir: Direction, from: BatteryTier, to: BatteryTier): Direction {
    if Charge(to) > Charge(from) then Up else if Charge(to) < Charge(from) then Down else dir
  }

  /** How often the tier moves against the direction in which it last moved. */
  function Reversals(tier: BatteryTier, dir: Direction, levels: seq<Option<Num>>): nat
    decreases |levels|
  {
    if levels == [] then 0
    else
      var next := NextBatteryTier(tier, levels[0]);
      var dir' := Move(dir, tier, next);
      (if dir != Unmoved && dir' != dir then 1 else 0) + Reversals(next, dir', levels[1..])
  }

  /** The total distance between consecutive readings, starting from `last`. */
  function Travel(last: Option<real>, levels: seq<Option<Num>>): (d: real)
    ensures d >= 0.0
    decreases |levels|
  {
    if levels == [] then 0.0
    else
      match Reading(levels[0])
      case None => Travel(last, levels[1..])
      case Some(v) => (if last.Some? then Abs(v - last.value) else 0.0) + Travel(Some(v), levels[1..])
  }

  /** The reading at which the tier last moved lies beyond the threshold that move needed. */
  predicate Anchored(tier: BatteryTier, dir: Direction, anchor: real) {
    match dir
    case Unmoved => true
    case Down => tier != Normal && anchor <= if tier == Critical then CRITICAL_THRESHOLD else LOW_THRESHOLD
    case Up =>
      && tier != Critical
      && anchor >= (if tier == Low then CRITICAL_THRESHOLD else LOW_THRESHOLD) + RECOVERY_MARGIN
  }

  /** One reading: moving re-anchors, and moving back costs at least the margin. */
  lemma MoveCost(tier: BatteryTier, dir: Direction, anchor: real, level: Option<Num>)
    requires Anchored(tier, dir, anchor)
    ensures var next := NextBatteryTier(tier, level);
            var dir' := Move(dir, tier, next);
            match Reading(level)
            case None => next == tier && dir' == dir
            case Some(v) =>
              && (next != tier ==> Anchored(next, dir', v))
              && (dir != Unmoved && dir' != dir ==> Abs(v - anchor) >= RECOVERY_MARGIN)
  {
  }

  lemma {:induction false} ReversalsCostFrom(tier: BatteryTier, dir: Direction, anchor: real, v: real,
    levels: seq<Option<Num>>)
    requires dir != Unmoved && Anchored(tier, dir, anchor)
    ensures Reversals(tier, dir, levels) as real * RECOVERY_MARGIN <= Travel(Some(v), levels) + Abs(v - anchor)
    decreases |levels|
  {
    if levels != [] {
      MoveCost(tier, dir, anchor, levels[0]);
      var next := NextBatteryTier(tier, levels[0]);
      var dir' := Move(dir, tier, next);
      match Reading(levels[0])
      case None => ReversalsCostFrom(next, dir', anchor, v, levels[1..]);
      case Some(v') => ReversalsCostFrom(next, dir', if next != tier then v' else anchor, v', levels[1..]);
    }
  }

  /** Over any sequence of levels each reversal of the tier is paid for by a margin of travel. */
  lemma {:induction false} ReversalsCostMargin(tier: BatteryTier, last: Option<real>, levels: seq<Option<Num>>)
    ensures Reversals(tier, Unmoved, levels) as real * RECOVERY_MARGIN <= Travel(last, levels)
    decreases |levels|
  {
    if levels != [] {
      var next := NextBatteryTier(tier, levels[0]);
      MoveCost(tier, Unmoved, 0.0, levels[0]);
      match Reading(levels[0])
      case None => ReversalsCostMargin(next, last, levels[1..]);
      case Some(v) =>
        if next == tier {
          ReversalsCostMargin(next, Some(v), levels[1..]);
        } else {
          ReversalsCostFrom(next, Move(Unmoved, tier, next), v, v, levels[1..]);
        }
    }
  }

  ghost predicate ReadingsWithin(levels: seq<Option<Num>>, lo: real, hi: real) {
    forall level :: level in levels && Reading(level).Some? ==> lo <= Reading(level).value <= hi
  }

  lemma {:induction false} NarrowWindowFrom(tier: BatteryTier, dir: Direction, anchor: real, levels: seq<Option<Num>>,
    lo: real, hi: real)
    requires Anchored(tier, dir, anchor) && lo <= anchor <= hi && hi - lo < RECOVERY_MARGIN
    requires ReadingsWithin(levels, lo, hi)
    ensures Reversals(tier, dir, levels) == 0
    decreases |levels|
  {
    if levels != [] {
      MoveCost(tier, dir, anchor, levels[0]);
      var next := NextBatteryTier(tier, levels[0]);
      var moved := Reading(levels[0]).Some? && next != tier;
      NarrowWindowFrom(next, Move(dir, tier, next), if moved then Reading(levels[0]).value else anchor, levels[1..],
        lo, hi);
    }
  }

  /** Readings inside a window narrower than the margin never reverse the tier, however many there are. */
  lemma NarrowWindowNeverReverses(tier: BatteryTier, levels: seq<Option<Num>>, lo: real, hi: real)
    requires lo <= hi && hi - lo < RECOVERY_MARGIN
    requires ReadingsWithin(levels, lo, hi)
    ensures Reversals(tier, Unmoved, levels) == 0
  {
    NarrowWindowFrom(tier, Unmoved, lo, levels, lo, hi);
  }

  /** The margin is exact: a window as wide as the margin does let the tier flap forever. */
  lemma {:induction false} MarginWideWindowReverses(n: nat) returns (levels: seq<Option<Num>>)
    ensures ReadingsWithin(levels, LOW_THRESHOLD, LOW_THRESHOLD + RECOVERY_MARGIN)
    ensures Reversals(Low, Down, levels) >= n
  {
    if n == 0 {
      levels := [];
    } else {
      var rest := MarginWideWindowReverses(n - 1);
      var up, down := Some(Finite(LOW_THRESHOLD + RECOVERY_MARGIN)), Some(Finite(LOW_THRESHOLD));
      levels := [up, down] + rest;
      assert levels[1..] == [down] + rest && levels[1..][1..] == rest;
      assert NextBatteryTier(Low, up) == Normal && NextBatteryTier(Normal, down) == Low;
    }
  }
}
