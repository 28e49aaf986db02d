/** `clampConfig` as the source runs it: loops over the states and keys, reporting through one recorder. */
module ConfigClamp {
  import opened Basics
  import opened Limits
  import opened RetryPolicies
  import opened Tracking
  import opened ConfigSpec

  class Recorder {
    var adjustments: seq<Adjustment>

    constructor ()
      ensures adjustments == []
    {
      adjustments := [];
    }

    method Record(notes: seq<Adjustment>)
      modifies this
      ensures adjustments == old(adjustments) + notes
    {
      adjustments := adjustments + notes;
    }
  }

  method RecordUnknownKeys(keys: seq<Key>, known: Key -> bool, prefix: seq<Key>, record: Recorder)
    modifies record
    ensures record.adjustments == old(record.adjustments) + UnknownNotes(keys, known, prefix)
  {
    for i := 0 to |keys|
      invariant record.adjustments + UnknownNotes(keys[i..], known, prefix)
             == old(record.adjustments) + UnknownNotes(keys, known, prefix)
    {
      assert keys[i..][1..] == keys[i + 1..];
      if !known(keys[i]) {
        record.Record([Adjustment(prefix + [keys[i]], UnknownKey)]);
      }
    }
    assert UnknownNotes(keys[|keys|..], known, prefix) == [];
  }

  /** The list that the source's loops run over, complete but otherwise arbitrary. */
  ghost predicate Complete(states: seq<TrackingState>) {
    forall state: TrackingState :: state in states
  }

  lemma TrackingStatesComplete()
    ensures Complete(TRACKING_STATES)
  {
    forall state: TrackingState ensures state in TRACKING_STATES { EveryStateListed(state); }
  }

  function PinnedValue(values: StateRecord, range: Range, state: TrackingState): real {
    if Pinned(state) then range.max else values.At(state)
  }

  lemma PinNotesStep(states: seq<TrackingState>, i: nat, source: Json, range: Range, path: seq<Key>,
    before: seq<Adjustment>)
    requires i < |states|
    ensures before + PinNotes(states[i..], source, range, path)
         == before + PinNote(source, range, path, states[i]) + PinNotes(states[i + 1..], source, range, path)
  {
    assert states[i..][1..] == states[i + 1..];
  }

  method ApplyPin(values: StateRecord, source: Json, range: Range, path: seq<Key>, state: TrackingState,
    record: Recorder)
    returns (out: StateRecord)
    modifies record
    ensures out == if Pinned(state) then values.With(state, range.max) else values
    ensures record.adjustments == old(record.adjustments) + PinNote(source, range, path, state)
  {
    out := values;
    if Pinned(state) {
      record.Record(PinNote(source, range, path, state));
      out := out.With(state, range.max);
    }
  }

  /** Overwrites the pinned states of `values`, reporting each attempt to set one otherwise. */
  method ApplyPins(states: seq<TrackingState>, values: StateRecord, source: Json, range: Range, path: seq<Key>,
                   record: Recorder)
      returns (out: StateRecord)
    requires Complete(states)
    modifies record
    ensures forall state: TrackingState :: out.At(state) == PinnedValue(values, range, state)
    ensures record.adjustments == old(record.adjustments) + PinNotes(states, source, range, path)
  {
    out := values;
    for i := 0 to |states|
      invariant forall state: TrackingState ::
                  out.At(state) == if state in states[..i] then PinnedValue(values, range, state) else values.At(state)
      invariant record.adjustments + PinNotes(states[i..], source, range, path)
             == old(record.adjustments) + PinNotes(states, source, range, path)
    {
      assert states[..i + 1] == states[..i] + [states[i]];
      PinNotesStep(states, i, source, range, path, record.adjustments);
      out := ApplyPin(out, source, range, path, states[i], record);
    }
    assert states[..|states|] == states;
    assert PinNotes(states[|states|..], source, range, path) == [];
  }

  method ClampBase(states: seq<TrackingState>, base: StateRecord, range: Range) returns (out: StateRecord)
    requires Complete(states)
    ensures forall state: TrackingState :: out.At(state) == ClampToRange(base.At(state), range)
  {
    out := base;
    for i := 0 to |states|
      invariant forall state :: state in states[..i] ==> out.At(state) == ClampToRange(base.At(state), range)
    {
      assert states[..i + 1] == states[..i] + [states[i]];
      out := out.With(states[i], ClampToRange(base.At(states[i]), range));
    }
    assert states[..|states|] == states;
  }

  method ReadStates(states: seq<TrackingState>, source: Json, range: Range, base: StateRecord, path: seq<Key>,
                    record: Recorder)
      returns (out: StateRecord)
    requires Complete(states)
    modifies record
    ensures forall state: TrackingState :: out.At(state) == StateRead(source, range, base, path, state).value
    ensures record.adjustments == old(record.adjustments) + StateNotes(states, source, range, base, path)
  {
    out := base;
    for i := 0 to |states|
      invariant forall state :: state in states[..i] ==>
        out.At(state) == StateRead(source, range, base, path, state).value
      invariant record.adjustments + StateNotes(states[i..], source, range, base, path)
             == old(record.adjustments) + StateNotes(states, source, range, base, path)
    {
      assert states[i..][1..] == states[i + 1..] && states[..i + 1] == states[..i] + [states[i]];
      var read := StateRead(source, range, base, path, states[i]);
      record.Record(read.notes);
      out := out.With(states[i], read.value);
    }
    assert states[..|states|] == states;
    assert StateNotes(states[|states|..], source, range, base, path) == [];
  }

  method ReadStateRecord(raw: Json, range: Range, base: StateRecord, path: seq<Key>, record: Recorder)
    returns (out: StateRecord)
    modifies record
    ensures out == RecordValue(raw, range, base, path)
    ensures record.adjustments == old(record.adjustments) + RecordNotes(raw, range, base, path)
  {
    TrackingStatesComplete();
    if !Absent(raw) && !raw.Object? {
      record.Record([Adjustment(path, Invalid)]);
      ghost var noted := record.adjustments;
      out := ClampBase(TRACKING_STATES, base, range);
      out := ApplyPins(TRACKING_STATES, out, Object([], map[]), range, path, record);
      NoPinNotes(TRACKING_STATES, Object([], map[]), range, path);
      assert record.adjustments == noted + [];
    } else {
      var source := AsObject(raw);
      RecordUnknownKeys(source.keys, (key: Key) => key.StateKey?, path, record);
      out := ReadStates(TRACKING_STATES, source, range, base, path, record);
      out := ApplyPins(TRACKING_STATES, out, source, range, path, record);
      assert record.adjustments == old(record.adjustments) + RecordNotes(raw, range, base, path);
    }
    TabulateEqual(Entries(raw, range, base, path), out);
  }

  method ReadThresholds(source: Json, base: Config, record: Recorder) returns (low: real, critical: real)
    modifies record
    ensures (low, critical) == ConfigSpec.ReadThresholds(source, base).value
    ensures record.adjustments == old(record.adjustments) + ConfigSpec.ReadThresholds(source, base).notes
  {
    var lowRead := ReadClamped(Field(source, LowBatteryThresholdKey), LOW_RANGE, base.lowBatteryThreshold,
      [LowBatteryThresholdKey]);
    record.Record(lowRead.notes);
    low := lowRead.value;
    var criticalRead := ReadClamped(
      Field(source, CriticalBatteryThresholdKey), CRITICAL_RANGE, base.criticalBatteryThreshold,
      [CriticalBatteryThresholdKey]);
    record.Record(criticalRead.notes);
    critical := criticalRead.value;
    if critical >= low {
      record.Record([Adjustment([CriticalBatteryThresholdKey], Inconsistent)]);
      critical := ClampToRange(low - RECOVERY_MARGIN, CRITICAL_RANGE);
      if critical >= low {
        critical := low * 0.5;
      }
    }
  }

  method ReadDelays(raw: Json, base: RetryPolicy, record: Recorder) returns (baseDelayMs: real, maxDelayMs: real)
    modifies record
    ensures (baseDelayMs, maxDelayMs) == ConfigSpec.ReadDelays(raw, base).value
    ensures record.adjustments == old(record.adjustments) + ConfigSpec.ReadDelays(raw, base).notes
  {
    var baseDelay := ReadClamped(Field(raw, BaseDelayMsKey), BASE_DELAY_RANGE, base.baseDelayMs,
      [RetryKey, BaseDelayMsKey]);
    record.Record(baseDelay.notes);
    baseDelayMs := baseDelay.value;
    var maxDelay := ReadClamped(Field(raw, MaxDelayMsKey), MAX_DELAY_RANGE, base.maxDelayMs, [RetryKey, MaxDelayMsKey]);
    record.Record(maxDelay.notes);
    maxDelayMs := maxDelay.value;
    if maxDelayMs < baseDelayMs {
      record.Record([Adjustment([RetryKey, MaxDelayMsKey], Inconsistent)]);
      maxDelayMs := baseDelayMs;
    }
  }

  method ReadRetryPolicy(raw: Json, base: RetryPolicy, record: Recorder) returns (policy: RetryPolicy)
    modifies record
    ensures policy == ConfigSpec.ReadRetryPolicy(raw, base).value
    ensures record.adjustments == old(record.adjustments) + ConfigSpec.ReadRetryPolicy(raw, base).notes
  {
    if !Absent(raw) && !raw.Object? {
      record.Record([Adjustment([RetryKey], Invalid)]);
      return base;
    }
    var baseDelayMs, maxDelayMs := ReadDelays(raw, base, record);
    var attempts := ReadAttempts(raw, base);
    record.Record(attempts.notes);
    var multiplier := ReadClamped(Field(raw, MultiplierKey), MULTIPLIER_RANGE, base.multiplier,
      [RetryKey, MultiplierKey]);
    record.Record(multiplier.notes);
    var jitter := ReadClamped(Field(raw, JitterRatioKey), JITTER_RANGE, base.jitterRatio, [RetryKey, JitterRatioKey]);
    record.Record(jitter.notes);
    policy := RetryPolicy(baseDelayMs, maxDelayMs, multiplier.value, jitter.value, attempts.value);
  }

  /** A live session must not be pushed outside the live update interval. */
  method HoldLiveTarget(freshness: StateRecord, record: Recorder) returns (out: StateRecord)
    modifies record
    ensures out == WithLive(freshness)
    ensures record.adjustments == old(record.adjustments) + LiveNotes(freshness.At(Live))
  {
    var liveTarget := freshness.At(Live);
    var clamped := ClampToRange(liveTarget, LIVE_INTERVAL_RANGE);
    out := freshness;
    if clamped != liveTarget {
      record.Record(LiveNotes(liveTarget));
      out := freshness.With(Live, clamped);
    } else {
      WithLiveKeepsWhenSilent(freshness);
    }
  }

  /** Everything after the root check. */
  method ReadSource(source: Json, base: Config, record: Recorder) returns (config: Config)
    requires source.Object? && record.adjustments == []
    modifies record
    ensures config == ReadConfig(source, base)
    ensures record.adjustments == ReadNotes(source, base)
  {
    var version := ReadVersion(Field(source, ConfigVersionKey), base.configVersion);
    record.Record(version.notes);
    assert record.adjustments == version.notes;
    var distances := ReadStateRecord(Field(source, DistanceFiltersKey), DISTANCE_RANGE, base.distanceFilters,
                                     [DistanceFiltersKey], record);
    var freshness := ReadStateRecord(Field(source, TargetFreshnessSecondsKey), FRESHNESS_RANGE,
      base.targetFreshnessSeconds,
                                   [TargetFreshnessSecondsKey], record);
    freshness := HoldLiveTarget(freshness, record);
    var maxStale := ReadMaxStale(source, base);
    record.Record(maxStale.notes);
    var liveMax := ReadLiveMax(source, base);
    record.Record(liveMax.notes);
    var liveInterval := ReadLiveInterval(source, base);
    record.Record(liveInterval.notes);
    var low, critical := ReadThresholds(source, base, record);
    var batch := ReadBatch(source, base);
    record.Record(batch.notes);
    var minInterval := ReadMinInterval(source, base);
    record.Record(minInterval.notes);
    var accuracy := ReadAccuracy(source, base);
    record.Record(accuracy.notes);
    var retry := ReadRetryPolicy(Field(source, RetryKey), base.retry, record);
    RecordUnknownKeys(source.keys, IsConfigKey, [], record);
    config := Config(
      version.value, distances, freshness, maxStale.value, liveMax.value, liveInterval.value,
      low, critical, batch.value, minInterval.value, accuracy.value, retry);
  }

  /** Clamps a base by reading it through an absent remote value; what that reports is discarded. */
  method Normalise(base: Config) returns (config: Config)
    ensures config == ReadConfig(Object([], map[]), base)
  {
    var record := new Recorder();
    config := ReadSource(Object([], map[]), base, record);
  }

  method ClampConfig(remote: Json, base: Config) returns (result: ClampResult)
    ensures result == Clamp(remote, base)
  {
    var record := new Recorder();
    if !Absent(remote) && !remote.Object? {
      record.Record([Adjustment([], Invalid)]);
      var config := Normalise(base);
      return ClampResult(config, record.adjustments, false);
    }
    var config := ReadSource(AsObject(remote), base, record);
    return ClampResult(config, record.adjustments, record.adjustments == []);
  }
}
