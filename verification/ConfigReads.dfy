/** Where every number of an untrusted configuration goes, and what is reported about it. */
module ConfigReads {
  import opened Basics
  import opened Limits
  import opened RetryPolicies
  import opened Tracking
  import opened ConfigSpec

  predicate Usable(raw: Json) {
    raw.Number? && raw.number.Finite?
  }

  /** The point of the range nearest to the number supplied, or to the base's own if there is none. */
  ghost predicate ReadsTo(x: real, raw: Json, range: Range, own: real) {
    Nearest(x, if Usable(raw) then raw.number.value else own, range)
  }

  /** That point, to the nearest whole number, halves upwards. */
  ghost predicate ReadsToWhole(x: real, raw: Json, range: Range, own: real) {
    exists y :: ReadsTo(y, raw, range, own) && Integral(x) && y - 0.5 < x <= y + 0.5
  }

  /** A report on exactly the side the number is out of range, and one on anything else that is no number. */
  ghost predicate ReportedAs(notes: seq<Adjustment>, path: seq<Key>, raw: Json, range: Range) {
    && (Adjustment(path, BelowMin) in notes <==> Usable(raw) && raw.number.value < range.min)
    && (Adjustment(path, AboveMax) in notes <==> Usable(raw) && raw.number.value > range.max)
    && (Adjustment(path, Invalid) in notes <==> !Absent(raw) && !Usable(raw))
  }

  // ---- one number --------------------------------------------------------

  lemma ReadClampedReads(raw: Json, range: Range, own: real, path: seq<Key>)
    requires range.min <= range.max
    ensures ReadsTo(ReadClamped(raw, range, own, path).value, raw, range, own)
    ensures ReportedAs(ReadClamped(raw, range, own, path).notes, path, raw, range)
    ensures forall n :: n in ReadClamped(raw, range, own, path).notes ==> n.path == path
  {
    ClampIsNearest(if Usable(raw) then raw.number.value else own, range);
  }

  /** Each state's own number, but for the two states that never sample. */
  ghost predicate RecordReads(record: StateRecord, raw: Json, range: Range, own: StateRecord, state: TrackingState) {
    if Pinned(state) then record.At(state) == range.max
    else ReadsTo(record.At(state), Field(raw, StateKey(state)), range, own.At(state))
  }

  lemma RecordValueReads(raw: Json, range: Range, own: StateRecord, path: seq<Key>, state: TrackingState)
    requires range.min <= range.max
    ensures RecordReads(RecordValue(raw, range, own, path), raw, range, own, state)
  {
    ReadClampedReads(Field(AsObject(raw), StateKey(state)), range, own.At(state), path + [StateKey(state)]);
    assert RecordValue(raw, range, own, path).At(state) == Entries(raw, range, own, path)(state);
    ClampIsNearest(own.At(state), range);
  }

  // ---- the values --------------------------------------------------------

  ghost predicate ScalarsRead(c: Config, remote: Json, base: Config) {
    && ReadsTo(c.maxStaleSeconds, Field(remote, MaxStaleSecondsKey), MAX_STALE_SECONDS_RANGE, base.maxStaleSeconds)
    && ReadsTo(c.liveSessionMaxSeconds, Field(remote, LiveSessionMaxSecondsKey), LIVE_MAX_RANGE,
         base.liveSessionMaxSeconds)
    && ReadsTo(c.liveSessionUpdateIntervalSeconds, Field(remote, LiveSessionUpdateIntervalSecondsKey),
         LIVE_INTERVAL_RANGE, base.liveSessionUpdateIntervalSeconds)
    && ReadsTo(c.minUploadIntervalSeconds, Field(remote, MinUploadIntervalSecondsKey), UPLOAD_INTERVAL_RANGE,
         base.minUploadIntervalSeconds)
    && ReadsTo(c.maxAcceptableAccuracyMeters, Field(remote, MaxAcceptableAccuracyMetersKey), ACCURACY_RANGE,
         base.maxAcceptableAccuracyMeters)
    && ReadsToWhole(c.uploadBatchSize, Field(remote, UploadBatchSizeKey), BATCH_RANGE, base.uploadBatchSize)
  }

  /** The critical threshold as read if it is below the low one, and otherwise a margin below that, as near as legal. */
  ghost predicate ThresholdsRead(c: Config, remote: Json, base: Config) {
    && ReadsTo(c.lowBatteryThreshold, Field(remote, LowBatteryThresholdKey), LOW_RANGE, base.lowBatteryThreshold)
    && exists y ::
         && ReadsTo(y, Field(remote, CriticalBatteryThresholdKey), CRITICAL_RANGE, base.criticalBatteryThreshold)
         && if y < c.lowBatteryThreshold then c.criticalBatteryThreshold == y
            else Nearest(c.criticalBatteryThreshold, c.lowBatteryThreshold - RECOVERY_MARGIN, CRITICAL_RANGE)
  }

  /** The two records; the live target is held inside the live update interval as well. */
  ghost predicate RecordsRead(c: Config, remote: Json, base: Config) {
    && (forall state: TrackingState ::
          RecordReads(c.distanceFilters, Field(remote, DistanceFiltersKey), DISTANCE_RANGE, base.distanceFilters,
            state))
    && (forall state: TrackingState :: state != Live ==>
          RecordReads(c.targetFreshnessSeconds, Field(remote, TargetFreshnessSecondsKey), FRESHNESS_RANGE,
            base.targetFreshnessSeconds, state))
    && exists y ::
         && ReadsTo(y, Field(Field(remote, TargetFreshnessSecondsKey), StateKey(Live)), FRESHNESS_RANGE,
              base.targetFreshnessSeconds.At(Live))
         && Nearest(c.targetFreshnessSeconds.At(Live), y, LIVE_INTERVAL_RANGE)
  }

  /** The policy as read, with the longest delay raised to the base delay; no object at all keeps the base's. */
  ghost predicate RetryRead(p: RetryPolicy, raw: Json, own: RetryPolicy) {
    if !Absent(raw) && !raw.Object? then p == own
    else
      && ReadsTo(p.baseDelayMs, Field(raw, BaseDelayMsKey), BASE_DELAY_RANGE, own.baseDelayMs)
      && ReadsTo(p.multiplier, Field(raw, MultiplierKey), MULTIPLIER_RANGE, own.multiplier)
      && ReadsTo(p.jitterRatio, Field(raw, JitterRatioKey), JITTER_RANGE, own.jitterRatio)
      && ReadsToWhole(p.maxAttempts, Field(raw, MaxAttemptsKey), MAX_ATTEMPTS_RANGE, own.maxAttempts)
      && exists y ::
           && ReadsTo(y, Field(raw, MaxDelayMsKey), MAX_DELAY_RANGE, own.maxDelayMs)
           && p.maxDelayMs == if y < p.baseDelayMs then p.baseDelayMs else y
  }

  /** A natural number is taken over; anything else keeps the base's version. */
  predicate VersionRead(version: int, raw: Json, own: int) {
    if Usable(raw) && Integral(raw.number.value) && raw.number.value >= 0.0 then version as real == raw.number.value
    else version == own
  }

  /**
   * Where every number goes: to the nearest point of its guardrail, and from there only through the
   * rules that tie two numbers together.
   */
  lemma ClampReads(remote: Json, base: Config)
    ensures var c := Clamp(remote, base).config;
            && ScalarsRead(c, remote, base) && ThresholdsRead(c, remote, base) && RecordsRead(c, remote, base)
            && RetryRead(c.retry, Field(remote, RetryKey), base.retry)
            && VersionRead(c.configVersion, Field(remote, ConfigVersionKey), base.configVersion)
  {
    hide ScalarsRead, ThresholdsRead, RecordsRead, RetryRead, ReadRetryPolicy, ReadThresholds, DistanceValue,
      TargetValue, ReadClamped, ReadNotes;
    var source := if remote.Object? then remote else Object([], map[]);
    assert forall key :: Field(source, key) == Field(remote, key);
    var c := ReadConfig(source, base);
    ScalarsAreRead(source, base);
    ThresholdsAreRead(source, base);
    RecordsAreRead(source, base);
    RetryIsRead(Field(source, RetryKey), base.retry);
    SameReads(c, source, remote, base);
  }

  lemma SameReads(c: Config, source: Json, remote: Json, base: Config)
    requires forall key :: Field(source, key) == Field(remote, key)
    ensures ScalarsRead(c, source, base) <==> ScalarsRead(c, remote, base)
    ensures ThresholdsRead(c, source, base) <==> ThresholdsRead(c, remote, base)
    ensures RecordsRead(c, source, base) <==> RecordsRead(c, remote, base)
  {
    hide ReadsTo, ReadsToWhole, RecordReads, Field;
  }

  lemma RoundedReads(raw: Json, range: Range, own: real, path: seq<Key>)
    requires range.min <= range.max
    ensures ReadsToWhole(Rounded(ReadClamped(raw, range, own, path)).value, raw, range, own)
  {
    hide ReadClamped, ReadsTo;
    ReadClampedReads(raw, range, own, path);
  }

  lemma ScalarsAreRead(source: Json, base: Config)
    ensures ScalarsRead(ReadConfig(source, base), source, base)
  {
    hide ReadClamped, ReadsTo, ReadsToWhole, Field, ReadRetryPolicy, ReadThresholds, DistanceValue, TargetValue,
      ReadVersion;
    ReadClampedReads(Field(source, MaxStaleSecondsKey), MAX_STALE_SECONDS_RANGE, base.maxStaleSeconds,
      [MaxStaleSecondsKey]);
    ReadClampedReads(Field(source, LiveSessionMaxSecondsKey), LIVE_MAX_RANGE, base.liveSessionMaxSeconds,
      [LiveSessionMaxSecondsKey]);
    ReadClampedReads(Field(source, LiveSessionUpdateIntervalSecondsKey), LIVE_INTERVAL_RANGE,
      base.liveSessionUpdateIntervalSeconds, [LiveSessionUpdateIntervalSecondsKey]);
    ReadClampedReads(Field(source, MinUploadIntervalSecondsKey), UPLOAD_INTERVAL_RANGE,
      base.minUploadIntervalSeconds, [MinUploadIntervalSecondsKey]);
    ReadClampedReads(Field(source, MaxAcceptableAccuracyMetersKey), ACCURACY_RANGE,
      base.maxAcceptableAccuracyMeters, [MaxAcceptableAccuracyMetersKey]);
    RoundedReads(Field(source, UploadBatchSizeKey), BATCH_RANGE, base.uploadBatchSize, [UploadBatchSizeKey]);
    NothingToTighten(source, base);
  }

  /** The platform limits never bite: every guardrail lies within them. */
  lemma NothingToTighten(source: Json, base: Config)
    ensures ReadLiveMax(source, base)
            == ReadClamped(Field(source, LiveSessionMaxSecondsKey), LIVE_MAX_RANGE, base.liveSessionMaxSeconds,
                 [LiveSessionMaxSecondsKey])
    ensures ReadMinInterval(source, base)
            == ReadClamped(Field(source, MinUploadIntervalSecondsKey), UPLOAD_INTERVAL_RANGE,
                 base.minUploadIntervalSeconds, [MinUploadIntervalSecondsKey])
    ensures ReadAccuracy(source, base)
            == ReadClamped(Field(source, MaxAcceptableAccuracyMetersKey), ACCURACY_RANGE,
                 base.maxAcceptableAccuracyMeters, [MaxAcceptableAccuracyMetersKey])
    ensures ReadBatch(source, base)
            == Rounded(ReadClamped(Field(source, UploadBatchSizeKey), BATCH_RANGE, base.uploadBatchSize,
                 [UploadBatchSizeKey]))
  {
  }

  lemma ThresholdsAreRead(source: Json, base: Config)
    ensures ThresholdsRead(ReadConfig(source, base), source, base)
  {
    hide ReadClamped, ReadsTo, Field, ReadRetryPolicy, DistanceValue, TargetValue, ReadVersion, ReadBatch,
      ReadLiveMax, ReadMinInterval, ReadAccuracy, Nearest;
    var low := ReadClamped(Field(source, LowBatteryThresholdKey), LOW_RANGE, base.lowBatteryThreshold,
      [LowBatteryThresholdKey]);
    ReadClampedReads(Field(source, LowBatteryThresholdKey), LOW_RANGE, base.lowBatteryThreshold,
      [LowBatteryThresholdKey]);
    ReadClampedReads(Field(source, CriticalBatteryThresholdKey), CRITICAL_RANGE, base.criticalBatteryThreshold,
      [CriticalBatteryThresholdKey]);
    ReadClampedInBounds(Field(source, LowBatteryThresholdKey), LOW_RANGE, base.lowBatteryThreshold,
      [LowBatteryThresholdKey]);
    ClampIsNearest(low.value - RECOVERY_MARGIN, CRITICAL_RANGE);
  }

  lemma RecordsAreRead(source: Json, base: Config)
    ensures RecordsRead(ReadConfig(source, base), source, base)
  {
    hide ReadClamped, ReadsTo, Field, ReadRetryPolicy, ReadThresholds, ReadVersion, RecordValue, Nearest,
      ReadBatch, ReadLiveMax, ReadMinInterval, ReadAccuracy;
    var c, target := ReadConfig(source, base), TargetValue(source, base);
    forall state: TrackingState
      ensures RecordReads(c.distanceFilters, Field(source, DistanceFiltersKey), DISTANCE_RANGE, base.distanceFilters,
                state)
      ensures RecordReads(target, Field(source, TargetFreshnessSecondsKey), FRESHNESS_RANGE,
                base.targetFreshnessSeconds, state)
    {
      RecordValueReads(Field(source, DistanceFiltersKey), DISTANCE_RANGE, base.distanceFilters, [DistanceFiltersKey],
        state);
      RecordValueReads(Field(source, TargetFreshnessSecondsKey), FRESHNESS_RANGE, base.targetFreshnessSeconds,
        [TargetFreshnessSecondsKey], state);
    }
    LiveIsRead(target, Field(source, TargetFreshnessSecondsKey), base.targetFreshnessSeconds);
    assert c.targetFreshnessSeconds == WithLive(target);
  }

  lemma LiveIsRead(target: StateRecord, raw: Json, own: StateRecord)
    requires forall state: TrackingState :: RecordReads(target, raw, FRESHNESS_RANGE, own, state)
    ensures forall state: TrackingState :: state != Live ==>
              RecordReads(WithLive(target), raw, FRESHNESS_RANGE, own, state)
    ensures exists y ::
              && ReadsTo(y, Field(raw, StateKey(Live)), FRESHNESS_RANGE, own.At(Live))
              && Nearest(WithLive(target).At(Live), y, LIVE_INTERVAL_RANGE)
  {
    hide ReadsTo, Field;
    assert RecordReads(target, raw, FRESHNESS_RANGE, own, Live);
    forall state: TrackingState | state != Live
      ensures RecordReads(WithLive(target), raw, FRESHNESS_RANGE, own, state)
    {
      assert RecordReads(target, raw, FRESHNESS_RANGE, own, state);
    }
    ClampIsNearest(target.At(Live), LIVE_INTERVAL_RANGE);
  }

  lemma RetryIsRead(raw: Json, own: RetryPolicy)
    ensures RetryRead(ReadRetryPolicy(raw, own).value, raw, own)
  {
    hide ReadClamped, ReadsTo, ReadsToWhole, Field;
    ReadClampedReads(Field(raw, BaseDelayMsKey), BASE_DELAY_RANGE, own.baseDelayMs, [RetryKey, BaseDelayMsKey]);
    ReadClampedReads(Field(raw, MaxDelayMsKey), MAX_DELAY_RANGE, own.maxDelayMs, [RetryKey, MaxDelayMsKey]);
    ReadClampedReads(Field(raw, MultiplierKey), MULTIPLIER_RANGE, own.multiplier, [RetryKey, MultiplierKey]);
    ReadClampedReads(Field(raw, JitterRatioKey), JITTER_RANGE, own.jitterRatio, [RetryKey, JitterRatioKey]);
    RoundedReads(Field(raw, MaxAttemptsKey), MAX_ATTEMPTS_RANGE, own.maxAttempts, [RetryKey, MaxAttemptsKey]);
    AttemptsNotTightened(raw, own);
  }

  lemma AttemptsNotTightened(raw: Json, own: RetryPolicy)
    ensures ReadAttempts(raw, own)
            == Rounded(ReadClamped(Field(raw, MaxAttemptsKey), MAX_ATTEMPTS_RANGE, own.maxAttempts,
                 [RetryKey, MaxAttemptsKey]))
  {
  }

  // ---- the reports -------------------------------------------------------

  /** Whether a live target is above its interval: as supplied, or else the base's own. */
  ghost predicate LiveTooSlow(raw: Json, own: real) {
    exists y :: ReadsTo(y, raw, FRESHNESS_RANGE, own) && y > LIVE_INTERVAL_RANGE.max
  }

  ghost predicate ScalarsReported(notes: seq<Adjustment>, remote: Json) {
    && ReportedAs(notes, [MaxStaleSecondsKey], Field(remote, MaxStaleSecondsKey), MAX_STALE_SECONDS_RANGE)
    && ReportedAs(notes, [LiveSessionMaxSecondsKey], Field(remote, LiveSessionMaxSecondsKey), LIVE_MAX_RANGE)
    && ReportedAs(notes, [LiveSessionUpdateIntervalSecondsKey], Field(remote, LiveSessionUpdateIntervalSecondsKey),
         LIVE_INTERVAL_RANGE)
    && ReportedAs(notes, [LowBatteryThresholdKey], Field(remote, LowBatteryThresholdKey), LOW_RANGE)
    && ReportedAs(notes, [CriticalBatteryThresholdKey], Field(remote, CriticalBatteryThresholdKey), CRITICAL_RANGE)
    && ReportedAs(notes, [UploadBatchSizeKey], Field(remote, UploadBatchSizeKey), BATCH_RANGE)
    && ReportedAs(notes, [MinUploadIntervalSecondsKey], Field(remote, MinUploadIntervalSecondsKey),
         UPLOAD_INTERVAL_RANGE)
    && ReportedAs(notes, [MaxAcceptableAccuracyMetersKey], Field(remote, MaxAcceptableAccuracyMetersKey),
         ACCURACY_RANGE)
  }

  /** The guardrail of a field of the retry policy. */
  function RetryRange(key: Key): Option<Range> {
    match key
    case BaseDelayMsKey => Some(BASE_DELAY_RANGE)
    case MaxDelayMsKey => Some(MAX_DELAY_RANGE)
    case MultiplierKey => Some(MULTIPLIER_RANGE)
    case JitterRatioKey => Some(JITTER_RANGE)
    case MaxAttemptsKey => Some(MAX_ATTEMPTS_RANGE)
    case _ => None
  }

  ghost predicate RetryReported(notes: seq<Adjustment>, raw: Json) {
    forall key :: RetryRange(key).Some? ==>
      ReportedAs(notes, [RetryKey, key], Field(raw, key), RetryRange(key).value)
  }

  ghost predicate RecordReported(notes: seq<Adjustment>, path: seq<Key>, raw: Json, range: Range, state: TrackingState)
  {
    ReportedAs(notes, path + [StateKey(state)], Field(raw, StateKey(state)), range)
  }

  /** The live target answers to two ranges, with one lower end. */
  ghost predicate LiveReported(notes: seq<Adjustment>, raw: Json, own: real) {
    var path := [TargetFreshnessSecondsKey, StateKey(Live)];
    && (Adjustment(path, BelowMin) in notes <==> Usable(raw) && raw.number.value < LIVE_INTERVAL_RANGE.min)
    && (Adjustment(path, AboveMax) in notes <==> LiveTooSlow(raw, own))
    && (Adjustment(path, Invalid) in notes <==> !Absent(raw) && !Usable(raw))
  }

  /** The notes about one field of the configuration. */
  function NotesOn(source: Json, base: Config, key: Key): seq<Adjustment> {
    match key
    case ConfigVersionKey => ReadVersion(Field(source, ConfigVersionKey), base.configVersion).notes
    case DistanceFiltersKey => DistanceNotes(source, base)
    case TargetFreshnessSecondsKey => TargetNotes(source, base) + LiveNotes(TargetValue(source, base).At(Live))
    case MaxStaleSecondsKey => ReadMaxStale(source, base).notes
    case LiveSessionMaxSecondsKey => ReadLiveMax(source, base).notes
    case LiveSessionUpdateIntervalSecondsKey => ReadLiveInterval(source, base).notes
    case LowBatteryThresholdKey => ReadThresholds(source, base).notes
    case CriticalBatteryThresholdKey => ReadThresholds(source, base).notes
    case UploadBatchSizeKey => ReadBatch(source, base).notes
    case MinUploadIntervalSecondsKey => ReadMinInterval(source, base).notes
    case RetryKey => ReadRetryPolicy(Field(source, RetryKey), base.retry).notes
    case MaxAcceptableAccuracyMetersKey => ReadAccuracy(source, base).notes
    case _ => []
  }

  /** Every note begins with the field it is about. */
  ghost predicate Begins(notes: seq<Adjustment>, key: Key) {
    forall n :: n in notes ==> n.path != [] && n.path[0] == key
  }

  lemma {:induction false} UnknownNotesAre(keys: seq<Key>, known: Key -> bool, prefix: seq<Key>)
    ensures forall n :: n in UnknownNotes(keys, known, prefix) <==>
              n.reason == UnknownKey && exists key :: key in keys && !known(key) && n.path == prefix + [key]
  {
    if keys != [] {
      UnknownNotesAre(keys[1..], known, prefix);
      assert keys[0] in keys && forall key :: key in keys[1..] ==> key in keys;
    }
  }

  lemma {:induction false} StateNotesAre(states: seq<TrackingState>, source: Json, range: Range, own: StateRecord,
    path: seq<Key>)
    ensures forall n :: n in StateNotes(states, source, range, own, path) <==>
              exists state :: state in states && n in StateRead(source, range, own, path, state).notes
  {
    hide StateRead;
    if states != [] {
      StateNotesAre(states[1..], source, range, own, path);
      assert forall state :: state in states <==> state == states[0] || state in states[1..];
    }
  }

  lemma {:induction false} PinNotesAre(states: seq<TrackingState>, source: Json, range: Range, path: seq<Key>)
    ensures forall n :: n in PinNotes(states, source, range, path) <==>
              exists state :: state in states && n in PinNote(source, range, path, state)
    ensures forall n :: n in PinNotes(states, source, range, path) ==>
              n.reason == ForbiddenOverride && exists state :: n.path == path + [StateKey(state)]
  {
    if states != [] {
      PinNotesAre(states[1..], source, range, path);
      assert forall state :: state in states <==> state == states[0] || state in states[1..];
    }
  }

  /** Of the notes on a record, those about one state's number are that number's own. */
  lemma StateNote(raw: Json, range: Range, own: StateRecord, key: Key, state: TrackingState, n: Adjustment)
    requires Absent(raw) || raw.Object?
    requires n.path == [key, StateKey(state)] && n.reason != UnknownKey && n.reason != ForbiddenOverride
    ensures n in RecordNotes(raw, range, own, [key]) <==>
              n in StateRead(AsObject(raw), range, own, [key], state).notes
  {
    hide StateRead;
    var source, path := AsObject(raw), [key];
    UnknownNotesAre(source.keys, (k: Key) => k.StateKey?, path);
    StateNotesAre(TRACKING_STATES, source, range, own, path);
    PinNotesAre(TRACKING_STATES, source, range, path);
    EveryStateListed(state);
    forall other | n in StateRead(source, range, own, path, other).notes ensures other == state {
      StateReadPath(source, range, own, path, other);
      assert path + [StateKey(other)] == [key, StateKey(other)];
    }
  }

  lemma StateReadPath(source: Json, range: Range, own: StateRecord, path: seq<Key>, state: TrackingState)
    ensures forall n :: n in StateRead(source, range, own, path, state).notes ==> n.path == path + [StateKey(state)]
  {
  }

  lemma RecordStateReported(raw: Json, range: Range, own: StateRecord, key: Key, state: TrackingState)
    requires range.min <= range.max
    ensures RecordReported(RecordNotes(raw, range, own, [key]), [key], raw, range, state)
  {
    var path := [key] + [StateKey(state)];
    assert path == [key, StateKey(state)];
    if Absent(raw) || raw.Object? {
      hide RecordNotes, ReadClamped;
      ReadClampedReads(Field(AsObject(raw), StateKey(state)), range, own.At(state), path);
      StateNote(raw, range, own, key, state, Adjustment(path, BelowMin));
      StateNote(raw, range, own, key, state, Adjustment(path, AboveMax));
      StateNote(raw, range, own, key, state, Adjustment(path, Invalid));
    }
  }

  lemma RecordBegins(raw: Json, range: Range, own: StateRecord, key: Key)
    ensures Begins(RecordNotes(raw, range, own, [key]), key)
  {
    hide StateRead;
    var source, path := AsObject(raw), [key];
    UnknownNotesAre(source.keys, (k: Key) => k.StateKey?, path);
    StateNotesAre(TRACKING_STATES, source, range, own, path);
    PinNotesAre(TRACKING_STATES, source, range, path);
    forall state: TrackingState
      ensures forall n :: n in StateRead(source, range, own, path, state).notes ==> n.path == path + [StateKey(state)]
    {
      StateReadPath(source, range, own, path, state);
    }
  }

  lemma SectionsBegin(source: Json, base: Config, key: Key)
    requires key != LowBatteryThresholdKey && key != CriticalBatteryThresholdKey
    ensures Begins(NotesOn(source, base, key), key)
  {
    hide ReadRetryPolicy, ReadClamped, RecordNotes, TargetValue, LiveNotes, Field;
    match key
    case DistanceFiltersKey =>
      RecordBegins(Field(source, DistanceFiltersKey), DISTANCE_RANGE, base.distanceFilters, DistanceFiltersKey);
    case TargetFreshnessSecondsKey =>
      RecordBegins(Field(source, TargetFreshnessSecondsKey), FRESHNESS_RANGE, base.targetFreshnessSeconds,
        TargetFreshnessSecondsKey);
      LiveNotesAre(TargetValue(source, base).At(Live));
    case RetryKey => RetryBegins(Field(source, RetryKey), base.retry);
    case _ => ScalarsBegin(source, base, key);
  }

  lemma ScalarsBegin(source: Json, base: Config, key: Key)
    requires key != LowBatteryThresholdKey && key != CriticalBatteryThresholdKey && key != DistanceFiltersKey
    requires key != TargetFreshnessSecondsKey && key != RetryKey
    ensures Begins(NotesOn(source, base, key), key)
  {
    hide Field;
  }

  lemma RetryBegins(raw: Json, own: RetryPolicy)
    ensures Begins(ReadRetryPolicy(raw, own).notes, RetryKey)
  {
    if Absent(raw) || raw.Object? {
      hide ReadRetryPolicy, RetryReading;
      forall n | n in ReadRetryPolicy(raw, own).notes ensures n.path != [] && n.path[0] == RetryKey {
        if n.reason == Inconsistent {
          InconsistentDelay(raw, own, n);
        } else {
          RetryNotesAre(raw, own, n);
          var key :| n in RetryReading(raw, own, key).notes;
          RetryReadingPath(raw, own, key);
        }
      }
    } else {
      hide ReadDelays, ReadAttempts, ReadClamped;
    }
  }

  lemma InconsistentDelay(raw: Json, own: RetryPolicy, n: Adjustment)
    requires (Absent(raw) || raw.Object?) && n in ReadRetryPolicy(raw, own).notes && n.reason == Inconsistent
    ensures n.path == [RetryKey, MaxDelayMsKey]
  {
    hide Field;
  }

  lemma ThresholdsBegin(source: Json, base: Config)
    ensures forall n :: n in ReadThresholds(source, base).notes ==>
              n.path == [LowBatteryThresholdKey] || n.path == [CriticalBatteryThresholdKey]
  {
  }

  lemma SectionIncluded(source: Json, base: Config, key: Key, n: Adjustment)
    requires source.Object? && n in NotesOn(source, base, key)
    ensures n in ReadNotes(source, base)
  {
    hide ReadVersion, DistanceNotes, TargetNotes, LiveNotes, TargetValue, ReadMaxStale, ReadLiveMax, ReadLiveInterval,
      ReadThresholds, ReadBatch, ReadMinInterval, ReadAccuracy, ReadRetryPolicy, Field, UnknownNotes;
  }

  lemma EveryNoteInSection(source: Json, base: Config, n: Adjustment)
    requires source.Object? && n in ReadNotes(source, base) && n !in UnknownNotes(source.keys, IsConfigKey, [])
    ensures exists key :: n in NotesOn(source, base, key)
  {
    hide ReadVersion, DistanceNotes, TargetNotes, LiveNotes, TargetValue, ReadMaxStale, ReadLiveMax, ReadLiveInterval,
      ReadThresholds, ReadBatch, ReadMinInterval, ReadAccuracy, ReadRetryPolicy, Field, UnknownNotes;
    assert n in NotesOn(source, base, ConfigVersionKey) || n in NotesOn(source, base, DistanceFiltersKey)
      || n in NotesOn(source, base, TargetFreshnessSecondsKey) || n in NotesOn(source, base, MaxStaleSecondsKey)
      || n in NotesOn(source, base, LiveSessionMaxSecondsKey)
      || n in NotesOn(source, base, LiveSessionUpdateIntervalSecondsKey)
      || n in NotesOn(source, base, LowBatteryThresholdKey) || n in NotesOn(source, base, UploadBatchSizeKey)
      || n in NotesOn(source, base, MinUploadIntervalSecondsKey) || n in NotesOn(source, base, RetryKey)
      || n in NotesOn(source, base, MaxAcceptableAccuracyMetersKey);
  }

  /** A note about a field is among the notes of that field's own section. */
  lemma NoteOn(source: Json, base: Config, key: Key, n: Adjustment)
    requires source.Object? && n.path != [] && n.path[0] == key && (n.reason == UnknownKey ==> |n.path| != 1)
    ensures n in ReadNotes(source, base) <==> n in NotesOn(source, base, key)
  {
    hide NotesOn, ReadNotes;
    if n in NotesOn(source, base, key) { SectionIncluded(source, base, key, n); }
    UnknownNotesAre(source.keys, IsConfigKey, []);
    if n in ReadNotes(source, base) {
      EveryNoteInSection(source, base, n);
      var other :| n in NotesOn(source, base, other);
      if other == LowBatteryThresholdKey || other == CriticalBatteryThresholdKey {
        ThresholdsShared(source, base);
        ThresholdsBegin(source, base);
      } else {
        SectionsBegin(source, base, other);
      }
    }
  }

  lemma ThresholdsShared(source: Json, base: Config)
    ensures NotesOn(source, base, LowBatteryThresholdKey) == ReadThresholds(source, base).notes
    ensures NotesOn(source, base, CriticalBatteryThresholdKey) == ReadThresholds(source, base).notes
  {
  }

  /** So what a section reports, the whole reports. */
  lemma SectionReports(source: Json, base: Config, path: seq<Key>, raw: Json, range: Range)
    requires source.Object? && path != []
    ensures ReportedAs(ReadNotes(source, base), path, raw, range) <==>
              ReportedAs(NotesOn(source, base, path[0]), path, raw, range)
  {
    hide NotesOn, ReadNotes;
    NoteOn(source, base, path[0], Adjustment(path, BelowMin));
    NoteOn(source, base, path[0], Adjustment(path, AboveMax));
    NoteOn(source, base, path[0], Adjustment(path, Invalid));
  }

  /** A field of its own: what reading it reports, the whole reports. */
  lemma ScalarReports(source: Json, base: Config, key: Key, range: Range, own: real)
    requires source.Object? && range.min <= range.max
    requires NotesOn(source, base, key) == ReadClamped(Field(source, key), range, own, [key]).notes
    ensures ReportedAs(ReadNotes(source, base), [key], Field(source, key), range)
  {
    hide NotesOn, ReadNotes, ReportedAs, ReadClamped;
    ReadClampedReads(Field(source, key), range, own, [key]);
    SectionReports(source, base, [key], Field(source, key), range);
  }

  lemma ScalarsAreReported(source: Json, base: Config)
    requires source.Object?
    ensures ScalarsReported(ReadNotes(source, base), source)
  {
    hide ReadNotes, ReportedAs, ReadClamped, ReadThresholds;
    NothingToTighten(source, base);
    ScalarReports(source, base, MaxStaleSecondsKey, MAX_STALE_SECONDS_RANGE, base.maxStaleSeconds);
    ScalarReports(source, base, LiveSessionMaxSecondsKey, LIVE_MAX_RANGE, base.liveSessionMaxSeconds);
    ScalarReports(source, base, LiveSessionUpdateIntervalSecondsKey, LIVE_INTERVAL_RANGE,
      base.liveSessionUpdateIntervalSeconds);
    ScalarReports(source, base, UploadBatchSizeKey, BATCH_RANGE, base.uploadBatchSize);
    ScalarReports(source, base, MinUploadIntervalSecondsKey, UPLOAD_INTERVAL_RANGE, base.minUploadIntervalSeconds);
    ScalarReports(source, base, MaxAcceptableAccuracyMetersKey, ACCURACY_RANGE, base.maxAcceptableAccuracyMeters);
    ThresholdsReport(source, base);
    SectionReports(source, base, [LowBatteryThresholdKey], Field(source, LowBatteryThresholdKey), LOW_RANGE);
    SectionReports(source, base, [CriticalBatteryThresholdKey], Field(source, CriticalBatteryThresholdKey),
      CRITICAL_RANGE);
    ThresholdsShared(source, base);
  }

  lemma ThresholdsReport(source: Json, base: Config)
    ensures var notes := ReadThresholds(source, base).notes;
            && ReportedAs(notes, [LowBatteryThresholdKey], Field(source, LowBatteryThresholdKey), LOW_RANGE)
            && ReportedAs(notes, [CriticalBatteryThresholdKey], Field(source, CriticalBatteryThresholdKey),
                 CRITICAL_RANGE)
  {
    hide ReadClamped, Field;
    ReadClampedReads(Field(source, LowBatteryThresholdKey), LOW_RANGE, base.lowBatteryThreshold,
      [LowBatteryThresholdKey]);
    ReadClampedReads(Field(source, CriticalBatteryThresholdKey), CRITICAL_RANGE, base.criticalBatteryThreshold,
      [CriticalBatteryThresholdKey]);
  }

  function RetryOwn(own: RetryPolicy, key: Key): real {
    match key
    case BaseDelayMsKey => own.baseDelayMs
    case MaxDelayMsKey => own.maxDelayMs
    case MultiplierKey => own.multiplier
    case JitterRatioKey => own.jitterRatio
    case _ => own.maxAttempts
  }

  /** The reading of one field of a retry policy. */
  function RetryReading(raw: Json, own: RetryPolicy, key: Key): Read<real> {
    if RetryRange(key).None? then Read(0.0, [])
    else ReadClamped(Field(raw, key), RetryRange(key).value, RetryOwn(own, key), [RetryKey, key])
  }

  lemma RetryReadingPath(raw: Json, own: RetryPolicy, key: Key)
    ensures forall n :: n in RetryReading(raw, own, key).notes ==> n.path == [RetryKey, key]
  {
  }

  lemma RetryNotesAre(raw: Json, own: RetryPolicy, n: Adjustment)
    requires (Absent(raw) || raw.Object?) && n.reason != Inconsistent
    ensures n in ReadRetryPolicy(raw, own).notes <==> exists key :: n in RetryReading(raw, own, key).notes
  {
    hide ReadClamped, Field;
    AttemptsNotTightened(raw, own);
    if n in ReadRetryPolicy(raw, own).notes {
      assert n in RetryReading(raw, own, BaseDelayMsKey).notes || n in RetryReading(raw, own, MaxDelayMsKey).notes
        || n in RetryReading(raw, own, MultiplierKey).notes || n in RetryReading(raw, own, JitterRatioKey).notes
        || n in RetryReading(raw, own, MaxAttemptsKey).notes;
    }
  }

  lemma RetryNote(raw: Json, own: RetryPolicy, key: Key, n: Adjustment)
    requires (Absent(raw) || raw.Object?) && n.reason != Inconsistent && n.path == [RetryKey, key]
    ensures n in ReadRetryPolicy(raw, own).notes <==> n in RetryReading(raw, own, key).notes
  {
    hide RetryReading, ReadRetryPolicy;
    RetryNotesAre(raw, own, n);
    if n in ReadRetryPolicy(raw, own).notes {
      var other :| n in RetryReading(raw, own, other).notes;
      RetryReadingPath(raw, own, other);
      assert n.path[1] == other;
    }
  }

  lemma RetryReadingReports(raw: Json, own: RetryPolicy, key: Key)
    requires (Absent(raw) || raw.Object?) && RetryRange(key).Some?
    ensures ReportedAs(ReadRetryPolicy(raw, own).notes, [RetryKey, key], Field(raw, key), RetryRange(key).value)
  {
    hide ReadRetryPolicy, ReadClamped, ReportedAs;
    var range := RetryRange(key).value;
    ReadClampedReads(Field(raw, key), range, RetryOwn(own, key), [RetryKey, key]);
    RetryNote(raw, own, key, Adjustment([RetryKey, key], BelowMin));
    RetryNote(raw, own, key, Adjustment([RetryKey, key], AboveMax));
    RetryNote(raw, own, key, Adjustment([RetryKey, key], Invalid));
    SameNotesSameReports(RetryReading(raw, own, key).notes, ReadRetryPolicy(raw, own).notes, [RetryKey, key],
      Field(raw, key), range);
  }

  lemma SameNotesSameReports(part: seq<Adjustment>, whole: seq<Adjustment>, path: seq<Key>, raw: Json, range: Range)
    requires forall reason | reason in {BelowMin, AboveMax, Invalid} ::
               Adjustment(path, reason) in whole <==> Adjustment(path, reason) in part
    ensures ReportedAs(part, path, raw, range) <==> ReportedAs(whole, path, raw, range)
  {
  }

  lemma RetryReports(raw: Json, own: RetryPolicy)
    ensures RetryReported(ReadRetryPolicy(raw, own).notes, raw)
  {
    hide ReadRetryPolicy, ReportedAs, Field;
    forall key | RetryRange(key).Some?
      ensures ReportedAs(ReadRetryPolicy(raw, own).notes, [RetryKey, key], Field(raw, key), RetryRange(key).value)
    {
      if Absent(raw) || raw.Object? {
        RetryReadingReports(raw, own, key);
      } else {
        RetryRefused(raw, own, key, RetryRange(key).value);
      }
    }
  }

  lemma RetryRefused(raw: Json, own: RetryPolicy, key: Key, range: Range)
    requires !Absent(raw) && !raw.Object?
    ensures ReportedAs(ReadRetryPolicy(raw, own).notes, [RetryKey, key], Field(raw, key), range)
  {
    hide ReadDelays, ReadAttempts, ReadClamped;
    assert ReadRetryPolicy(raw, own).notes == [Adjustment([RetryKey], Invalid)];
  }

  lemma RetryAreReported(source: Json, base: Config)
    requires source.Object?
    ensures RetryReported(ReadNotes(source, base), Field(source, RetryKey))
  {
    hide ReadNotes, ReportedAs, ReadRetryPolicy, Field;
    var raw := Field(source, RetryKey);
    RetryReports(raw, base.retry);
    forall key | RetryRange(key).Some?
      ensures ReportedAs(ReadNotes(source, base), [RetryKey, key], Field(raw, key), RetryRange(key).value)
    {
      SectionReports(source, base, [RetryKey, key], Field(raw, key), RetryRange(key).value);
    }
  }

  lemma DistancesAreReported(source: Json, base: Config, state: TrackingState)
    requires source.Object?
    ensures RecordReported(ReadNotes(source, base), [DistanceFiltersKey], Field(source, DistanceFiltersKey),
              DISTANCE_RANGE, state)
  {
    hide ReadNotes, ReportedAs, RecordNotes;
    var raw := Field(source, DistanceFiltersKey);
    RecordStateReported(raw, DISTANCE_RANGE, base.distanceFilters, DistanceFiltersKey, state);
    SectionReports(source, base, [DistanceFiltersKey] + [StateKey(state)], Field(raw, StateKey(state)),
      DISTANCE_RANGE);
  }

  /** The notes about the live interval are about the live target alone. */
  lemma LiveNotesAre(target: real)
    ensures forall n :: n in LiveNotes(target) ==> n.path == [TargetFreshnessSecondsKey, StateKey(Live)]
    ensures Adjustment([TargetFreshnessSecondsKey, StateKey(Live)], AboveMax) in LiveNotes(target) <==>
              target > LIVE_INTERVAL_RANGE.max
    ensures Adjustment([TargetFreshnessSecondsKey, StateKey(Live)], BelowMin) in LiveNotes(target) <==>
              target < LIVE_INTERVAL_RANGE.min
    ensures Adjustment([TargetFreshnessSecondsKey, StateKey(Live)], Invalid) !in LiveNotes(target)
  {
  }

  lemma TargetsAreReported(source: Json, base: Config, state: TrackingState)
    requires source.Object? && state != Live
    ensures RecordReported(ReadNotes(source, base), [TargetFreshnessSecondsKey],
              Field(source, TargetFreshnessSecondsKey), FRESHNESS_RANGE, state)
  {
    hide ReadNotes, RecordNotes, LiveNotes, TargetValue;
    var raw := Field(source, TargetFreshnessSecondsKey);
    RecordStateReported(raw, FRESHNESS_RANGE, base.targetFreshnessSeconds, TargetFreshnessSecondsKey, state);
    LiveNotesAre(TargetValue(source, base).At(Live));
    var path := [TargetFreshnessSecondsKey] + [StateKey(state)];
    assert path[1] != StateKey(Live);
    SectionReports(source, base, path, Field(raw, StateKey(state)), FRESHNESS_RANGE);
  }

  lemma LiveIsReported(source: Json, base: Config)
    requires source.Object?
    ensures LiveReported(ReadNotes(source, base), Field(Field(source, TargetFreshnessSecondsKey), StateKey(Live)),
              base.targetFreshnessSeconds.At(Live))
  {
    hide ReadNotes, RecordNotes, LiveNotes, TargetValue, ReadsTo, Nearest;
    var raw, own := Field(source, TargetFreshnessSecondsKey), base.targetFreshnessSeconds;
    var path := [TargetFreshnessSecondsKey, StateKey(Live)];
    assert path == [TargetFreshnessSecondsKey] + [StateKey(Live)];
    RecordStateReported(raw, FRESHNESS_RANGE, own, TargetFreshnessSecondsKey, Live);
    LiveNotesAre(TargetValue(source, base).At(Live));
    NoteOn(source, base, TargetFreshnessSecondsKey, Adjustment(path, BelowMin));
    NoteOn(source, base, TargetFreshnessSecondsKey, Adjustment(path, AboveMax));
    NoteOn(source, base, TargetFreshnessSecondsKey, Adjustment(path, Invalid));
    LiveTarget(source, base);
  }

  lemma LiveTarget(source: Json, base: Config)
    ensures var raw, target := Field(Field(source, TargetFreshnessSecondsKey), StateKey(Live)),
              TargetValue(source, base).At(Live);
            && target >= LIVE_INTERVAL_RANGE.min
            && (target > LIVE_INTERVAL_RANGE.max <==> LiveTooSlow(raw, base.targetFreshnessSeconds.At(Live)))
            && (Usable(raw) && raw.number.value > FRESHNESS_RANGE.max ==> target > LIVE_INTERVAL_RANGE.max)
  {
    hide RecordValue, Nearest, Field;
    var raw, own := Field(source, TargetFreshnessSecondsKey), base.targetFreshnessSeconds;
    var target := TargetValue(source, base).At(Live);
    RecordValueReads(raw, FRESHNESS_RANGE, own, [TargetFreshnessSecondsKey], Live);
    var live := Field(raw, StateKey(Live));
    assert ReadsTo(target, live, FRESHNESS_RANGE, own.At(Live));
    var v := if Usable(live) then live.number.value else own.At(Live);
    forall y | Nearest(y, v, FRESHNESS_RANGE) ensures y == target { NearestUnique(y, target, v, FRESHNESS_RANGE); }
    NearestWithin(target, v, FRESHNESS_RANGE);
  }

  lemma NearestUnique(x: real, y: real, v: real, range: Range)
    requires Nearest(x, v, range) && Nearest(y, v, range)
    ensures x == y
  {
    var middle := (x + y) / 2.0;
    assert Within(x, range) && Within(y, range) && Within(middle, range);
  }

  lemma NearestWithin(x: real, v: real, range: Range)
    requires Nearest(x, v, range)
    ensures Within(x, range) && (v > range.max ==> x == range.max)
  {
    assert Within(range.max, range);
  }

  /**
   * For every field with a guardrail, a number below it is reported as BELOW_MIN, a number above it
   * as ABOVE_MAX and anything else that is no number as INVALID, and nothing else is.
   */
  lemma ReportsExactly(remote: Json, base: Config)
    ensures var notes := Clamp(remote, base).adjustments;
            if !Absent(remote) && !remote.Object? then notes == [Adjustment([], Invalid)]
            else
              && ScalarsReported(notes, remote) && RetryReported(notes, Field(remote, RetryKey))
              && (forall state: TrackingState ::
                    RecordReported(notes, [DistanceFiltersKey], Field(remote, DistanceFiltersKey), DISTANCE_RANGE,
                      state))
              && (forall state: TrackingState :: state != Live ==>
                    RecordReported(notes, [TargetFreshnessSecondsKey], Field(remote, TargetFreshnessSecondsKey),
                      FRESHNESS_RANGE, state))
              && LiveReported(notes, Field(Field(remote, TargetFreshnessSecondsKey), StateKey(Live)),
                   base.targetFreshnessSeconds.At(Live))
  {
    hide ScalarsReported, RetryReported, RecordReported, LiveReported, ReadNotes, ReadConfig;
    if Absent(remote) || remote.Object? {
      var source := AsObject(remote);
      ScalarsAreReported(source, base);
      RetryAreReported(source, base);
      LiveIsReported(source, base);
      forall state: TrackingState
        ensures RecordReported(ReadNotes(source, base), [DistanceFiltersKey], Field(source, DistanceFiltersKey),
                  DISTANCE_RANGE, state)
        ensures state != Live ==>
                  RecordReported(ReadNotes(source, base), [TargetFreshnessSecondsKey],
                    Field(source, TargetFreshnessSecondsKey), FRESHNESS_RANGE, state)
      {
        DistancesAreReported(source, base, state);
        if state != Live { TargetsAreReported(source, base, state); }
      }
      SameReports(ReadNotes(source, base), remote);
    }
  }

  lemma SameReports(notes: seq<Adjustment>, remote: Json)
    requires Absent(remote) || remote.Object?
    ensures ScalarsReported(notes, AsObject(remote)) <==> ScalarsReported(notes, remote)
    ensures forall key :: Field(AsObject(remote), key) == Field(remote, key)
  {
    hide ReportedAs;
  }

  // ---- the other reports -------------------------------------------------

  /** A name that is not a state's, and a number for a pinned state that is not its pin. */
  ghost predicate RecordOddities(notes: seq<Adjustment>, path: seq<Key>, raw: Json, range: Range) {
    && (forall key :: Adjustment(path + [key], UnknownKey) in notes <==>
          raw.Object? && key in raw.keys && !key.StateKey?)
    && (forall state: TrackingState ::
          var supplied := Field(raw, StateKey(state));
          Adjustment(path + [StateKey(state)], ForbiddenOverride) in notes <==>
            && (state == Disabled || state == PermissionRequired)
            && supplied.Number? && supplied.number != Finite(range.max))
    && (Adjustment(path, Invalid) in notes <==> !Absent(raw) && !raw.Object?)
  }

  lemma StateReadReasons(source: Json, range: Range, own: StateRecord, path: seq<Key>, state: TrackingState)
    ensures forall n :: n in StateRead(source, range, own, path, state).notes ==>
              n.path == path + [StateKey(state)] && n.reason in {Invalid, BelowMin, AboveMax}
  {
  }

  lemma RecordUnknown(raw: Json, range: Range, own: StateRecord, key: Key, name: Key)
    ensures Adjustment([key] + [name], UnknownKey) in RecordNotes(raw, range, own, [key]) <==>
              raw.Object? && name in raw.keys && !name.StateKey?
  {
    hide StateRead;
    var source, path, n := AsObject(raw), [key], Adjustment([key] + [name], UnknownKey);
    UnknownNotesAre(source.keys, (k: Key) => k.StateKey?, path);
    StateNotesAre(TRACKING_STATES, source, range, own, path);
    PinNotesAre(TRACKING_STATES, source, range, path);
    forall state | n in StateRead(source, range, own, path, state).notes ensures false {
      StateReadReasons(source, range, own, path, state);
    }
    assert forall k :: path + [k] == path + [name] ==> k == name by {
      forall k | path + [k] == path + [name] ensures k == name { assert (path + [k])[1] == (path + [name])[1]; }
    }
  }

  lemma RecordForbidden(raw: Json, range: Range, own: StateRecord, key: Key, state: TrackingState)
    ensures var supplied := Field(raw, StateKey(state));
            Adjustment([key] + [StateKey(state)], ForbiddenOverride) in RecordNotes(raw, range, own, [key]) <==>
              Pinned(state) && supplied.Number? && supplied.number != Finite(range.max)
  {
    hide StateRead, Pinned, PinNote;
    var source, path, n := AsObject(raw), [key], Adjustment([key] + [StateKey(state)], ForbiddenOverride);
    UnknownNotesAre(source.keys, (k: Key) => k.StateKey?, path);
    StateNotesAre(TRACKING_STATES, source, range, own, path);
    PinNotesAre(TRACKING_STATES, source, range, path);
    EveryStateListed(state);
    forall other ensures n !in StateRead(source, range, own, path, other).notes {
      StateReadReasons(source, range, own, path, other);
    }
    assert n.path == [key, StateKey(state)];
    forall other ensures n in PinNote(source, range, path, other) ==> other == state {
      PinNoteIs(source, range, key, other);
      assert [key, StateKey(other)][1] == StateKey(other);
    }
    PinNoteIs(source, range, key, state);
  }

  lemma PinNoteIs(source: Json, range: Range, key: Key, state: TrackingState)
    ensures var supplied := Field(source, StateKey(state));
            Adjustment([key] + [StateKey(state)], ForbiddenOverride) in PinNote(source, range, [key], state) <==>
              Pinned(state) && supplied.Number? && supplied.number != Finite(range.max)
    ensures forall n :: n in PinNote(source, range, [key], state) ==> n.path == [key, StateKey(state)]
  {
  }

  lemma RecordInvalid(raw: Json, range: Range, own: StateRecord, key: Key)
    ensures Adjustment([key], Invalid) in RecordNotes(raw, range, own, [key]) <==> !Absent(raw) && !raw.Object?
  {
    hide StateRead;
    var source, path := AsObject(raw), [key];
    UnknownNotesAre(source.keys, (k: Key) => k.StateKey?, path);
    StateNotesAre(TRACKING_STATES, source, range, own, path);
    PinNotesAre(TRACKING_STATES, source, range, path);
    forall state ensures Adjustment(path, Invalid) !in StateRead(source, range, own, path, state).notes {
      StateReadPath(source, range, own, path, state);
    }
  }

  lemma DistanceOddities(source: Json, base: Config)
    requires source.Object?
    ensures RecordOddities(ReadNotes(source, base), [DistanceFiltersKey], Field(source, DistanceFiltersKey),
              DISTANCE_RANGE)
  {
    hide ReadNotes, RecordNotes;
    var raw, key, own := Field(source, DistanceFiltersKey), DistanceFiltersKey, base.distanceFilters;
    forall name
      ensures Adjustment([key] + [name], UnknownKey) in ReadNotes(source, base) <==>
                raw.Object? && name in raw.keys && !name.StateKey?
    {
      NoteOn(source, base, key, Adjustment([key] + [name], UnknownKey));
      RecordUnknown(raw, DISTANCE_RANGE, own, key, name);
    }
    forall state: TrackingState
      ensures var supplied := Field(raw, StateKey(state));
              Adjustment([key] + [StateKey(state)], ForbiddenOverride) in ReadNotes(source, base) <==>
                Pinned(state) && supplied.Number? && supplied.number != Finite(DISTANCE_RANGE.max)
    {
      NoteOn(source, base, key, Adjustment([key] + [StateKey(state)], ForbiddenOverride));
      RecordForbidden(raw, DISTANCE_RANGE, own, key, state);
    }
    NoteOn(source, base, key, Adjustment([key], Invalid));
    RecordInvalid(raw, DISTANCE_RANGE, own, key);
  }

  lemma TargetOddities(source: Json, base: Config)
    requires source.Object?
    ensures RecordOddities(ReadNotes(source, base), [TargetFreshnessSecondsKey],
              Field(source, TargetFreshnessSecondsKey), FRESHNESS_RANGE)
  {
    hide ReadNotes, RecordNotes, LiveNotes, TargetValue;
    var raw, key, own := Field(source, TargetFreshnessSecondsKey), TargetFreshnessSecondsKey,
      base.targetFreshnessSeconds;
    LiveReasons(TargetValue(source, base).At(Live));
    forall name
      ensures Adjustment([key] + [name], UnknownKey) in ReadNotes(source, base) <==>
                raw.Object? && name in raw.keys && !name.StateKey?
    {
      NoteOn(source, base, key, Adjustment([key] + [name], UnknownKey));
      RecordUnknown(raw, FRESHNESS_RANGE, own, key, name);
    }
    forall state: TrackingState
      ensures var supplied := Field(raw, StateKey(state));
              Adjustment([key] + [StateKey(state)], ForbiddenOverride) in ReadNotes(source, base) <==>
                Pinned(state) && supplied.Number? && supplied.number != Finite(FRESHNESS_RANGE.max)
    {
      NoteOn(source, base, key, Adjustment([key] + [StateKey(state)], ForbiddenOverride));
      RecordForbidden(raw, FRESHNESS_RANGE, own, key, state);
    }
    NoteOn(source, base, key, Adjustment([key], Invalid));
    RecordInvalid(raw, FRESHNESS_RANGE, own, key);
  }

  lemma LiveReasons(target: real)
    ensures forall n :: n in LiveNotes(target) ==> n.reason == BelowMin || n.reason == AboveMax
  {
  }

  /** Whether the critical threshold as read is not below the low one. */
  ghost predicate Inverted(remote: Json, base: Config) {
    exists low, critical ::
      && ReadsTo(low, Field(remote, LowBatteryThresholdKey), LOW_RANGE, base.lowBatteryThreshold)
      && ReadsTo(critical, Field(remote, CriticalBatteryThresholdKey), CRITICAL_RANGE, base.criticalBatteryThreshold)
      && critical >= low
  }

  /** Whether the longest delay as read is shorter than the base delay. */
  ghost predicate Shorter(raw: Json, own: RetryPolicy) {
    exists least, most ::
      && ReadsTo(least, Field(raw, BaseDelayMsKey), BASE_DELAY_RANGE, own.baseDelayMs)
      && ReadsTo(most, Field(raw, MaxDelayMsKey), MAX_DELAY_RANGE, own.maxDelayMs)
      && most < least
  }

  lemma ReadsToOnce(x: real, y: real, raw: Json, range: Range, own: real)
    requires ReadsTo(x, raw, range, own) && ReadsTo(y, raw, range, own)
    ensures x == y
  {
    NearestUnique(x, y, if Usable(raw) then raw.number.value else own, range);
  }

  lemma ThresholdsInconsistent(source: Json, base: Config)
    ensures Adjustment([CriticalBatteryThresholdKey], Inconsistent) in ReadThresholds(source, base).notes <==>
              Inverted(source, base)
  {
    hide ReadClamped, ReadsTo, Field;
    var low := ReadClamped(Field(source, LowBatteryThresholdKey), LOW_RANGE, base.lowBatteryThreshold,
      [LowBatteryThresholdKey]);
    var critical := ReadClamped(Field(source, CriticalBatteryThresholdKey), CRITICAL_RANGE,
      base.criticalBatteryThreshold, [CriticalBatteryThresholdKey]);
    ReadClampedReads(Field(source, LowBatteryThresholdKey), LOW_RANGE, base.lowBatteryThreshold,
      [LowBatteryThresholdKey]);
    ReadClampedReads(Field(source, CriticalBatteryThresholdKey), CRITICAL_RANGE, base.criticalBatteryThreshold,
      [CriticalBatteryThresholdKey]);
    ReadClampedReasons(Field(source, LowBatteryThresholdKey), LOW_RANGE, base.lowBatteryThreshold,
      [LowBatteryThresholdKey]);
    ReadClampedReasons(Field(source, CriticalBatteryThresholdKey), CRITICAL_RANGE, base.criticalBatteryThreshold,
      [CriticalBatteryThresholdKey]);
    if Inverted(source, base) {
      var x, y :| ReadsTo(x, Field(source, LowBatteryThresholdKey), LOW_RANGE, base.lowBatteryThreshold)
        && ReadsTo(y, Field(source, CriticalBatteryThresholdKey), CRITICAL_RANGE, base.criticalBatteryThreshold)
        && y >= x;
      ReadsToOnce(x, low.value, Field(source, LowBatteryThresholdKey), LOW_RANGE, base.lowBatteryThreshold);
      ReadsToOnce(y, critical.value, Field(source, CriticalBatteryThresholdKey), CRITICAL_RANGE,
        base.criticalBatteryThreshold);
    }
  }

  lemma ReadClampedReasons(raw: Json, range: Range, own: real, path: seq<Key>)
    ensures forall n :: n in ReadClamped(raw, range, own, path).notes ==>
              n.path == path && n.reason in {Invalid, BelowMin, AboveMax}
  {
  }

  lemma DelaysInconsistent(raw: Json, own: RetryPolicy)
    ensures Adjustment([RetryKey, MaxDelayMsKey], Inconsistent) in ReadDelays(raw, own).notes <==> Shorter(raw, own)
  {
    hide ReadClamped, ReadsTo, Field;
    var least := ReadClamped(Field(raw, BaseDelayMsKey), BASE_DELAY_RANGE, own.baseDelayMs, [RetryKey, BaseDelayMsKey]);
    var most := ReadClamped(Field(raw, MaxDelayMsKey), MAX_DELAY_RANGE, own.maxDelayMs, [RetryKey, MaxDelayMsKey]);
    ReadClampedReads(Field(raw, BaseDelayMsKey), BASE_DELAY_RANGE, own.baseDelayMs, [RetryKey, BaseDelayMsKey]);
    ReadClampedReads(Field(raw, MaxDelayMsKey), MAX_DELAY_RANGE, own.maxDelayMs, [RetryKey, MaxDelayMsKey]);
    ReadClampedReasons(Field(raw, BaseDelayMsKey), BASE_DELAY_RANGE, own.baseDelayMs, [RetryKey, BaseDelayMsKey]);
    ReadClampedReasons(Field(raw, MaxDelayMsKey), MAX_DELAY_RANGE, own.maxDelayMs, [RetryKey, MaxDelayMsKey]);
    if Shorter(raw, own) {
      var x, y :| ReadsTo(x, Field(raw, BaseDelayMsKey), BASE_DELAY_RANGE, own.baseDelayMs)
        && ReadsTo(y, Field(raw, MaxDelayMsKey), MAX_DELAY_RANGE, own.maxDelayMs) && y < x;
      ReadsToOnce(x, least.value, Field(raw, BaseDelayMsKey), BASE_DELAY_RANGE, own.baseDelayMs);
      ReadsToOnce(y, most.value, Field(raw, MaxDelayMsKey), MAX_DELAY_RANGE, own.maxDelayMs);
    }
  }

  lemma RetryInconsistent(raw: Json, own: RetryPolicy)
    ensures Adjustment([RetryKey, MaxDelayMsKey], Inconsistent) in ReadRetryPolicy(raw, own).notes <==>
              (Absent(raw) || raw.Object?) && Shorter(raw, own)
    ensures Adjustment([RetryKey], Invalid) in ReadRetryPolicy(raw, own).notes <==> !Absent(raw) && !raw.Object?
  {
    hide ReadClamped, ReadDelays, Field, Shorter;
    DelaysInconsistent(raw, own);
    DelaysPaths(raw, own);
    AttemptsNotTightened(raw, own);
    ReadClampedReasons(Field(raw, MaxAttemptsKey), MAX_ATTEMPTS_RANGE, own.maxAttempts, [RetryKey, MaxAttemptsKey]);
    ReadClampedReasons(Field(raw, MultiplierKey), MULTIPLIER_RANGE, own.multiplier, [RetryKey, MultiplierKey]);
    ReadClampedReasons(Field(raw, JitterRatioKey), JITTER_RANGE, own.jitterRatio, [RetryKey, JitterRatioKey]);
  }

  lemma DelaysPaths(raw: Json, own: RetryPolicy)
    ensures forall n :: n in ReadDelays(raw, own).notes ==> |n.path| == 2
  {
    hide Field;
  }

  /** A natural number. */
  predicate IsVersion(raw: Json) {
    Usable(raw) && Integral(raw.number.value) && raw.number.value >= 0.0
  }

  lemma VersionReports(source: Json, base: Config)
    ensures Adjustment([ConfigVersionKey], Invalid) in NotesOn(source, base, ConfigVersionKey) <==>
              !Absent(Field(source, ConfigVersionKey)) && !IsVersion(Field(source, ConfigVersionKey))
  {
    hide Field;
  }

  /** An unknown name is reported with its path, so only those at the root have a path of one name. */
  lemma RootUnknown(source: Json, base: Config, key: Key)
    requires source.Object?
    ensures Adjustment([key], UnknownKey) in ReadNotes(source, base) <==> key in source.keys && key !in KNOWN_KEYS
  {
    hide NotesOn, ReadNotes;
    var n := Adjustment([key], UnknownKey);
    KnownKeysExactly(key);
    RootNotes(source, base, n);
    UnknownNotesAre(source.keys, IsConfigKey, []);
    forall k | [] + [k] == [key] ensures k == key { assert ([] + [k])[0] == [key][0]; }
    assert [] + [key] == [key];
    forall other ensures n !in NotesOn(source, base, other) { SectionsKnow(source, base, other, n); }
  }

  lemma RootNotes(source: Json, base: Config, n: Adjustment)
    requires source.Object?
    ensures n in ReadNotes(source, base) <==>
              n in UnknownNotes(source.keys, IsConfigKey, []) || exists key :: n in NotesOn(source, base, key)
  {
    hide ReadNotes, NotesOn, UnknownNotes;
    if n in UnknownNotes(source.keys, IsConfigKey, []) { UnknownIncluded(source, base, n); }
    forall key | n in NotesOn(source, base, key) ensures n in ReadNotes(source, base) {
      SectionIncluded(source, base, key, n);
    }
    if n in ReadNotes(source, base) && n !in UnknownNotes(source.keys, IsConfigKey, []) {
      EveryNoteInSection(source, base, n);
    }
  }

  lemma UnknownIncluded(source: Json, base: Config, n: Adjustment)
    requires source.Object? && n in UnknownNotes(source.keys, IsConfigKey, [])
    ensures n in ReadNotes(source, base)
  {
    hide ReadVersion, DistanceNotes, TargetNotes, LiveNotes, TargetValue, ReadMaxStale, ReadLiveMax, ReadLiveInterval,
      ReadThresholds, ReadBatch, ReadMinInterval, ReadAccuracy, ReadRetryPolicy, Field, UnknownNotes;
  }

  /** No section calls a name of the root unknown. */
  lemma SectionsKnow(source: Json, base: Config, key: Key, n: Adjustment)
    requires |n.path| == 1 && n.reason == UnknownKey
    ensures n !in NotesOn(source, base, key)
  {
    hide ReadRetryPolicy, ReadThresholds, RecordNotes, TargetValue, LiveNotes, Field;
    match key
    case DistanceFiltersKey =>
      RecordKnows(Field(source, key), DISTANCE_RANGE, base.distanceFilters, key, n);
    case TargetFreshnessSecondsKey =>
      RecordKnows(Field(source, key), FRESHNESS_RANGE, base.targetFreshnessSeconds, key, n);
      LiveReasons(TargetValue(source, base).At(Live));
    case RetryKey => RetryKnows(Field(source, key), base.retry);
    case LowBatteryThresholdKey => ThresholdsKnow(source, base);
    case CriticalBatteryThresholdKey => ThresholdsKnow(source, base);
    case _ =>
  }

  lemma RecordKnows(raw: Json, range: Range, own: StateRecord, key: Key, n: Adjustment)
    requires |n.path| == 1 && n.reason == UnknownKey
    ensures n !in RecordNotes(raw, range, own, [key])
  {
    hide StateRead;
    var source, path := AsObject(raw), [key];
    UnknownNotesAre(source.keys, (k: Key) => k.StateKey?, path);
    StateNotesAre(TRACKING_STATES, source, range, own, path);
    PinNotesAre(TRACKING_STATES, source, range, path);
    assert forall k :: |path + [k]| == 2;
    forall state | n in StateRead(source, range, own, path, state).notes ensures false {
      StateReadReasons(source, range, own, path, state);
    }
  }

  lemma RetryKnows(raw: Json, own: RetryPolicy)
    ensures forall n :: n in ReadRetryPolicy(raw, own).notes ==> n.reason != UnknownKey
  {
    if Absent(raw) || raw.Object? {
      hide ReadRetryPolicy, RetryReading;
      forall n | n in ReadRetryPolicy(raw, own).notes ensures n.reason != UnknownKey {
        if n.reason != Inconsistent {
          RetryNotesAre(raw, own, n);
          var key :| n in RetryReading(raw, own, key).notes;
          RetryReadingReasons(raw, own, key);
        }
      }
    } else {
      hide ReadDelays, ReadAttempts, ReadClamped;
    }
  }

  lemma RetryReadingReasons(raw: Json, own: RetryPolicy, key: Key)
    ensures forall n :: n in RetryReading(raw, own, key).notes ==> n.reason in {Invalid, BelowMin, AboveMax}
  {
  }

  lemma ThresholdsKnow(source: Json, base: Config)
    ensures forall n :: n in ReadThresholds(source, base).notes ==> n.reason != UnknownKey
  {
    hide Field;
  }

  /** The reports that are about no number's range. */
  ghost predicate OdditiesReported(notes: seq<Adjustment>, source: Json, base: Config)
    requires source.Object?
  {
    && (forall key :: Adjustment([key], UnknownKey) in notes <==> key in source.keys && key !in KNOWN_KEYS)
    && (Adjustment([ConfigVersionKey], Invalid) in notes <==>
          !Absent(Field(source, ConfigVersionKey)) && !IsVersion(Field(source, ConfigVersionKey)))
    && RecordOddities(notes, [DistanceFiltersKey], Field(source, DistanceFiltersKey), DISTANCE_RANGE)
    && RecordOddities(notes, [TargetFreshnessSecondsKey], Field(source, TargetFreshnessSecondsKey), FRESHNESS_RANGE)
    && (Adjustment([CriticalBatteryThresholdKey], Inconsistent) in notes <==> Inverted(source, base))
    && (Adjustment([RetryKey, MaxDelayMsKey], Inconsistent) in notes <==>
          var raw := Field(source, RetryKey); (Absent(raw) || raw.Object?) && Shorter(raw, base.retry))
    && (Adjustment([RetryKey], Invalid) in notes <==>
          !Absent(Field(source, RetryKey)) && !Field(source, RetryKey).Object?)
  }

  /**
   * Every unknown name, every override of a pin, every record, policy or version that is none, and
   * every pair of numbers in the wrong order is reported, and no other is.
   */
  lemma OdditiesExactly(source: Json, base: Config)
    requires source.Object?
    ensures OdditiesReported(Clamp(source, base).adjustments, source, base)
  {
    hide ReadNotes, ReadConfig, NotesOn, RecordOddities, Field, Inverted, Shorter, IsVersion;
    var notes := ReadNotes(source, base);
    forall key ensures Adjustment([key], UnknownKey) in notes <==> key in source.keys && key !in KNOWN_KEYS {
      RootUnknown(source, base, key);
    }
    NoteOn(source, base, ConfigVersionKey, Adjustment([ConfigVersionKey], Invalid));
    VersionReports(source, base);
    DistanceOddities(source, base);
    TargetOddities(source, base);
    NoteOn(source, base, CriticalBatteryThresholdKey, Adjustment([CriticalBatteryThresholdKey], Inconsistent));
    ThresholdsShared(source, base);
    ThresholdsInconsistent(source, base);
    NoteOn(source, base, RetryKey, Adjustment([RetryKey, MaxDelayMsKey], Inconsistent));
    NoteOn(source, base, RetryKey, Adjustment([RetryKey], Invalid));
    RetryShared(source, base);
    RetryInconsistent(Field(source, RetryKey), base.retry);
  }

  lemma RetryShared(source: Json, base: Config)
    ensures NotesOn(source, base, RetryKey) == ReadRetryPolicy(Field(source, RetryKey), base.retry).notes
  {
  }
}
