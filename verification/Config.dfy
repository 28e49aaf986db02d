/** Clamping of untrusted remote configuration (packages/location-core/src/config.ts). */
module ConfigSpec {
  import opened Basics
  import opened Limits
  import opened RetryPolicies
  import opened Tracking

  // ---- untrusted input ---------------------------------------------------

  /** Field names, interned: those the source reads, the state names, and any other name. */
  datatype Key =
    | ConfigVersionKey
    | DistanceFiltersKey
    | TargetFreshnessSecondsKey
    | MaxStaleSecondsKey
    | LiveSessionMaxSecondsKey
    | LiveSessionUpdateIntervalSecondsKey
    | LowBatteryThresholdKey
    | CriticalBatteryThresholdKey
    | UploadBatchSizeKey
    | MinUploadIntervalSecondsKey
    | RetryKey
    | MaxAcceptableAccuracyMetersKey
    | BaseDelayMsKey
    | MaxDelayMsKey
    | MultiplierKey
    | JitterRatioKey
    | MaxAttemptsKey
    | StateKey(state: TrackingState)
    | OtherKey(name: string)

  /** The keys `clampConfig` knows. */
  predicate IsConfigKey(key: Key) {
    match key
    case ConfigVersionKey => true
    case DistanceFiltersKey => true
    case TargetFreshnessSecondsKey => true
    case MaxStaleSecondsKey => true
    case LiveSessionMaxSecondsKey => true
    case LiveSessionUpdateIntervalSecondsKey => true
    case LowBatteryThresholdKey => true
    case CriticalBatteryThresholdKey => true
    case UploadBatchSizeKey => true
    case MinUploadIntervalSecondsKey => true
    case RetryKey => true
    case MaxAcceptableAccuracyMetersKey => true
    case _ => false
  }

  /** A JSON-like value; `Opaque` is a string, a boolean or an array. `keys` lists the fields in insertion order. */
  datatype Json =
    | Undefined
    | Null
    | Number(number: Num)
    | Opaque
    | Object(keys: seq<Key>, fields: map<Key, Json>)

  predicate Absent(v: Json) {
    v.Undefined? || v.Null?
  }

  /** `isPlainObject(v) ? v : {}` */
  function AsObject(v: Json): Json {
    if v.Object? then v else Object([], map[])
  }

  function Field(v: Json, key: Key): Json {
    if v.Object? && key in v.fields then v.fields[key] else Undefined
  }

  // ---- states and records ------------------------------------------------

  const TRACKING_STATES: seq<TrackingState> :=
    [Disabled, PermissionRequired, Stationary, Passive, Walking, Transit, Live, LowBattery, CriticalBattery, Offline,
     Stale]

  /** A number for every state. */
  datatype StateRecord = StateRecord(
    disabled: real,
    permissionRequired: real,
    stationary: real,
    passive: real,
    walking: real,
    transit: real,
    live: real,
    lowBattery: real,
    criticalBattery: real,
    offline: real,
    stale: real
  ) {
    function At(state: TrackingState): real {
      match state
      case Disabled => disabled
      case PermissionRequired => permissionRequired
      case Stationary => stationary
      case Passive => passive
      case Walking => walking
      case Transit => transit
      case Live => live
      case LowBattery => lowBattery
      case CriticalBattery => criticalBattery
      case Offline => offline
      case Stale => stale
    }

    function With(state: TrackingState, v: real): (r: StateRecord)
      ensures forall other: TrackingState :: r.At(other) == if other == state then v else At(other)
    {
      match state
      case Disabled => this.(disabled := v)
      case PermissionRequired => this.(permissionRequired := v)
      case Stationary => this.(stationary := v)
      case Passive => this.(passive := v)
      case Walking => this.(walking := v)
      case Transit => this.(transit := v)
      case Live => this.(live := v)
      case LowBattery => this.(lowBattery := v)
      case CriticalBattery => this.(criticalBattery := v)
      case Offline => this.(offline := v)
      case Stale => this.(stale := v)
    }
  }

  function Tabulate(f: TrackingState -> real): (r: StateRecord)
    ensures forall state: TrackingState :: r.At(state) == f(state)
  {
    StateRecord(f(Disabled), f(PermissionRequired), f(Stationary), f(Passive), f(Walking), f(Transit), f(Live),
      f(LowBattery), f(CriticalBattery), f(Offline), f(Stale))
  }

  lemma RecordsEqual(a: StateRecord, b: StateRecord)
    requires forall state: TrackingState :: a.At(state) == b.At(state)
    ensures a == b
  {
    assert a.At(Disabled) == b.At(Disabled);
    assert a.At(PermissionRequired) == b.At(PermissionRequired);
    assert a.At(Stationary) == b.At(Stationary);
    assert a.At(Passive) == b.At(Passive);
    assert a.At(Walking) == b.At(Walking);
    assert a.At(Transit) == b.At(Transit);
    assert a.At(Live) == b.At(Live);
    assert a.At(LowBattery) == b.At(LowBattery);
    assert a.At(CriticalBattery) == b.At(CriticalBattery);
    assert a.At(Offline) == b.At(Offline);
    assert a.At(Stale) == b.At(Stale);
  }

  /** States that never sample are pinned to the least aggressive legal value. */
  predicate Pinned(state: TrackingState) {
    state == Disabled || state == PermissionRequired
  }

  // ---- configuration -----------------------------------------------------

  datatype Config = Config(
    configVersion: int,
    distanceFilters: StateRecord,
    targetFreshnessSeconds: StateRecord,
    maxStaleSeconds: real,
    liveSessionMaxSeconds: real,
    liveSessionUpdateIntervalSeconds: real,
    lowBatteryThreshold: real,
    criticalBatteryThreshold: real,
    uploadBatchSize: real,
    minUploadIntervalSeconds: real,
    maxAcceptableAccuracyMeters: real,
    retry: RetryPolicy
  )

  datatype Reason =
    | Invalid | BelowMin | AboveMax | ExceedsPlatformLimit | UnknownKey | ForbiddenOverride | Inconsistent

  /** `path` is the dotted path of the offending field; the empty path is the root. */
  datatype Adjustment = Adjustment(path: seq<Key>, reason: Reason)

  datatype ClampResult = ClampResult(config: Config, adjustments: seq<Adjustment>, accepted: bool)

  const DISTANCE_RANGE := Range(10.0, 5000.0)
  const FRESHNESS_RANGE := Range(10.0, 3600.0)
  const LIVE_MAX_RANGE := Range(60.0, 600.0)
  const LIVE_INTERVAL_RANGE := Range(10.0, 30.0)
  const LOW_RANGE := Range(0.05, 0.5)
  const CRITICAL_RANGE := Range(0.02, 0.2)
  const BATCH_RANGE := Range(1.0, 100.0)
  const UPLOAD_INTERVAL_RANGE := Range(30.0, 3600.0)
  const ACCURACY_RANGE := Range(5.0, 500.0)
  const MAX_HORIZONTAL_ACCURACY := 500.0

  const KNOWN_KEYS: seq<Key> := [
    ConfigVersionKey, DistanceFiltersKey, TargetFreshnessSecondsKey, MaxStaleSecondsKey, LiveSessionMaxSecondsKey,
    LiveSessionUpdateIntervalSecondsKey, LowBatteryThresholdKey, CriticalBatteryThresholdKey, UploadBatchSizeKey,
    MinUploadIntervalSecondsKey, RetryKey, MaxAcceptableAccuracyMetersKey]

  // ---- readers -----------------------------------------------------------

  /** A value read from untrusted input, with what had to be reported about it. */
  datatype Read<+T> = Read(value: T, notes: seq<Adjustment>)

  function ClampToRange(value: real, range: Range): real {
    Min(range.max, Max(range.min, value))
  }

  function ReadClamped(raw: Json, range: Range, fallback: real, path: seq<Key>): Read<real> {
    if Absent(raw) then Read(ClampToRange(fallback, range), [])
    else if !raw.Number? || raw.number.NonFinite? then Read(ClampToRange(fallback, range), [Adjustment(path, Invalid)])
    else
      var v := raw.number.value;
      if v < range.min then Read(range.min, [Adjustment(path, BelowMin)])
      else if v > range.max then Read(range.max, [Adjustment(path, AboveMax)])
      else Read(v, [])
  }

  function TightenMax(read: Read<real>, ceiling: real, path: seq<Key>): Read<real> {
    if read.value > ceiling then Read(ceiling, read.notes + [Adjustment(path, ExceedsPlatformLimit)]) else read
  }

  function TightenMin(read: Read<real>, floor: real, path: seq<Key>): Read<real> {
    if read.value < floor then Read(floor, read.notes + [Adjustment(path, ExceedsPlatformLimit)]) else read
  }

  function Rounded(read: Read<real>): Read<real> {
    Read(Round(read.value) as real, read.notes)
  }

  function ReadVersion(raw: Json, base: int): Read<int> {
    if Absent(raw) then Read(base, [])
    else if !raw.Number? || raw.number.NonFinite? || !Integral(raw.number.value) || raw.number.value < 0.0 then
      Read(base, [Adjustment([ConfigVersionKey], Invalid)])
    else Read(raw.number.value.Floor, [])
  }

  function UnknownNotes(keys: seq<Key>, known: Key -> bool, prefix: seq<Key>): seq<Adjustment> {
    if keys == [] then []
    else
      (if known(keys[0]) then [] else [Adjustment(prefix + [keys[0]], UnknownKey)])
      + UnknownNotes(keys[1..], known, prefix)
  }

  function StateRead(source: Json, range: Range, base: StateRecord, path: seq<Key>, state: TrackingState): Read<real> {
    ReadClamped(Field(source, StateKey(state)), range, base.At(state), path + [StateKey(state)])
  }

  function StateNotes(states: seq<TrackingState>, source: Json, range: Range, base: StateRecord,
    path: seq<Key>): seq<Adjustment> {
    if states == [] then []
    else StateRead(source, range, base, path, states[0]).notes + StateNotes(states[1..], source, range, base, path)
  }

  function PinNote(source: Json, range: Range, path: seq<Key>, state: TrackingState): seq<Adjustment> {
    var supplied := Field(source, StateKey(state));
    if Pinned(state) && supplied.Number? && supplied.number != Finite(range.max) then
      [Adjustment(path + [StateKey(state)], ForbiddenOverride)]
    else []
  }

  function PinNotes(states: seq<TrackingState>, source: Json, range: Range, path: seq<Key>): seq<Adjustment> {
    if states == [] then []
    else PinNote(source, range, path, states[0]) + PinNotes(states[1..], source, range, path)
  }

  /** The record before its pins are applied. */
  function UnpinnedValue(raw: Json, range: Range, base: StateRecord, path: seq<Key>, state: TrackingState): real {
    if Absent(raw) || raw.Object? then StateRead(AsObject(raw), range, base, path, state).value
    else ClampToRange(base.At(state), range)
  }

  function RecordEntry(raw: Json, range: Range, base: StateRecord, path: seq<Key>, state: TrackingState): real {
    if Pinned(state) then range.max else UnpinnedValue(raw, range, base, path, state)
  }

  function Entries(raw: Json, range: Range, base: StateRecord, path: seq<Key>): TrackingState -> real {
    state => RecordEntry(raw, range, base, path, state)
  }

  function RecordValue(raw: Json, range: Range, base: StateRecord, path: seq<Key>): StateRecord {
    Tabulate(Entries(raw, range, base, path))
  }

  function RecordNotes(raw: Json, range: Range, base: StateRecord, path: seq<Key>): seq<Adjustment> {
    if !Absent(raw) && !raw.Object? then [Adjustment(path, Invalid)]
    else
      var source := AsObject(raw);
      UnknownNotes(source.keys, (key: Key) => key.StateKey?, path)
      + StateNotes(TRACKING_STATES, source, range, base, path)
      + PinNotes(TRACKING_STATES, source, range, path)
  }

  /** The live target is additionally held inside the live update interval. */
  function WithLive(record: StateRecord): StateRecord {
    record.With(Live, ClampToRange(record.At(Live), LIVE_INTERVAL_RANGE))
  }

  function LiveNotes(target: real): seq<Adjustment> {
    if ClampToRange(target, LIVE_INTERVAL_RANGE) == target then []
    else
      [Adjustment(
         [TargetFreshnessSecondsKey, StateKey(Live)],
         if target < LIVE_INTERVAL_RANGE.min then BelowMin else AboveMax)]
  }

  function DistanceValue(source: Json, base: Config): StateRecord {
    RecordValue(Field(source, DistanceFiltersKey), DISTANCE_RANGE, base.distanceFilters, [DistanceFiltersKey])
  }

  function DistanceNotes(source: Json, base: Config): seq<Adjustment> {
    RecordNotes(Field(source, DistanceFiltersKey), DISTANCE_RANGE, base.distanceFilters, [DistanceFiltersKey])
  }

  function TargetValue(source: Json, base: Config): StateRecord {
    RecordValue(Field(source, TargetFreshnessSecondsKey), FRESHNESS_RANGE, base.targetFreshnessSeconds,
      [TargetFreshnessSecondsKey])
  }

  function TargetNotes(source: Json, base: Config): seq<Adjustment> {
    RecordNotes(Field(source, TargetFreshnessSecondsKey), FRESHNESS_RANGE, base.targetFreshnessSeconds,
      [TargetFreshnessSecondsKey])
  }

  /** (low, critical), with critical forced below low. */
  function ReadThresholds(source: Json, base: Config): Read<(real, real)> {
    var low := ReadClamped(Field(source, LowBatteryThresholdKey), LOW_RANGE, base.lowBatteryThreshold,
      [LowBatteryThresholdKey]);
    var critical := ReadClamped(Field(source, CriticalBatteryThresholdKey), CRITICAL_RANGE,
      base.criticalBatteryThreshold, [CriticalBatteryThresholdKey]);
    var notes := low.notes + critical.notes;
    if critical.value < low.value then Read((low.value, critical.value), notes)
    else
      var lowered := ClampToRange(low.value - RECOVERY_MARGIN, CRITICAL_RANGE);
      Read(
        (low.value, if lowered >= low.value then low.value * 0.5 else lowered),
        notes + [Adjustment([CriticalBatteryThresholdKey], Inconsistent)])
  }

  /** (base, maximum), with the maximum raised to the base. */
  function ReadDelays(raw: Json, base: RetryPolicy): Read<(real, real)> {
    var baseDelay := ReadClamped(Field(raw, BaseDelayMsKey), BASE_DELAY_RANGE, base.baseDelayMs,
      [RetryKey, BaseDelayMsKey]);
    var maxDelay := ReadClamped(Field(raw, MaxDelayMsKey), MAX_DELAY_RANGE, base.maxDelayMs, [RetryKey, MaxDelayMsKey]);
    var notes := baseDelay.notes + maxDelay.notes;
    if maxDelay.value < baseDelay.value then
      Read((baseDelay.value, baseDelay.value), notes + [Adjustment([RetryKey, MaxDelayMsKey], Inconsistent)])
    else Read((baseDelay.value, maxDelay.value), notes)
  }

  function ReadAttempts(raw: Json, base: RetryPolicy): Read<real> {
    TightenMax(
      Rounded(ReadClamped(Field(raw, MaxAttemptsKey), MAX_ATTEMPTS_RANGE, base.maxAttempts,
        [RetryKey, MaxAttemptsKey])),
      MAX_UPLOAD_ATTEMPTS as real, [RetryKey, MaxAttemptsKey])
  }

  function ReadRetryPolicy(raw: Json, base: RetryPolicy): Read<RetryPolicy> {
    if !Absent(raw) && !raw.Object? then Read(base, [Adjustment([RetryKey], Invalid)])
    else
      var delays := ReadDelays(raw, base);
      var attempts := ReadAttempts(raw, base);
      var multiplier := ReadClamped(Field(raw, MultiplierKey), MULTIPLIER_RANGE, base.multiplier,
        [RetryKey, MultiplierKey]);
      var jitter := ReadClamped(Field(raw, JitterRatioKey), JITTER_RANGE, base.jitterRatio, [RetryKey, JitterRatioKey]);
      Read(
        RetryPolicy(delays.value.0, delays.value.1, multiplier.value, jitter.value, attempts.value),
        delays.notes + attempts.notes + multiplier.notes + jitter.notes)
  }

  function ReadBatch(source: Json, base: Config): Read<real> {
    TightenMax(
      Rounded(ReadClamped(Field(source, UploadBatchSizeKey), BATCH_RANGE, base.uploadBatchSize, [UploadBatchSizeKey])),
      MAX_EVENTS_PER_BATCH as real, [UploadBatchSizeKey])
  }

  function ReadLiveMax(source: Json, base: Config): Read<real> {
    TightenMax(
      ReadClamped(Field(source, LiveSessionMaxSecondsKey), LIVE_MAX_RANGE, base.liveSessionMaxSeconds,
        [LiveSessionMaxSecondsKey]),
      MAX_LIVE_SESSION_SECONDS as real, [LiveSessionMaxSecondsKey])
  }

  function ReadMinInterval(source: Json, base: Config): Read<real> {
    TightenMin(
      ReadClamped(Field(source, MinUploadIntervalSecondsKey), UPLOAD_INTERVAL_RANGE, base.minUploadIntervalSeconds,
        [MinUploadIntervalSecondsKey]),
      MIN_UPLOAD_INTERVAL_SECONDS, [MinUploadIntervalSecondsKey])
  }

  function ReadAccuracy(source: Json, base: Config): Read<real> {
    TightenMax(
      ReadClamped(Field(source, MaxAcceptableAccuracyMetersKey), ACCURACY_RANGE, base.maxAcceptableAccuracyMeters,
        [MaxAcceptableAccuracyMetersKey]),
      MAX_HORIZONTAL_ACCURACY, [MaxAcceptableAccuracyMetersKey])
  }

  function ReadMaxStale(source: Json, base: Config): Read<real> {
    ReadClamped(Field(source, MaxStaleSecondsKey), MAX_STALE_SECONDS_RANGE, base.maxStaleSeconds, [MaxStaleSecondsKey])
  }

  function ReadLiveInterval(source: Json, base: Config): Read<real> {
    ReadClamped(Field(source, LiveSessionUpdateIntervalSecondsKey), LIVE_INTERVAL_RANGE,
                base.liveSessionUpdateIntervalSeconds, [LiveSessionUpdateIntervalSecondsKey])
  }

  function ReadConfig(source: Json, base: Config): Config {
    var thresholds := ReadThresholds(source, base).value;
    Config(
      ReadVersion(Field(source, ConfigVersionKey), base.configVersion).value,
      DistanceValue(source, base),
      WithLive(TargetValue(source, base)),
      ReadMaxStale(source, base).value,
      ReadLiveMax(source, base).value,
      ReadLiveInterval(source, base).value,
      thresholds.0,
      thresholds.1,
      ReadBatch(source, base).value,
      ReadMinInterval(source, base).value,
      ReadAccuracy(source, base).value,
      ReadRetryPolicy(Field(source, RetryKey), base.retry).value)
  }

  function ReadNotes(source: Json, base: Config): seq<Adjustment>
    requires source.Object?
  {
    ReadVersion(Field(source, ConfigVersionKey), base.configVersion).notes
    + DistanceNotes(source, base)
    + TargetNotes(source, base)
    + LiveNotes(TargetValue(source, base).At(Live))
    + ReadMaxStale(source, base).notes
    + ReadLiveMax(source, base).notes
    + ReadLiveInterval(source, base).notes
    + ReadThresholds(source, base).notes
    + ReadBatch(source, base).notes
    + ReadMinInterval(source, base).notes
    + ReadAccuracy(source, base).notes
    + ReadRetryPolicy(Field(source, RetryKey), base.retry).notes
    + UnknownNotes(source.keys, IsConfigKey, [])
  }

  /** What `clampConfig` computes. */
  function Clamp(remote: Json, base: Config): ClampResult {
    if !Absent(remote) && !remote.Object? then
      ClampResult(ReadConfig(Object([], map[]), base), [Adjustment([], Invalid)], false)
    else
      var source := AsObject(remote);
      var notes := ReadNotes(source, base);
      ClampResult(ReadConfig(source, base), notes, notes == [])
  }

  // ---- the guardrails ----------------------------------------------------

  predicate RecordWithin(record: StateRecord, range: Range) {
    forall state: TrackingState :: Within(record.At(state), range) && (Pinned(state) ==> record.At(state) == range.max)
  }

  /** Every guardrail, hard limit and pin, with critical < low. */
  predicate InBounds(c: Config) {
    && c.configVersion >= 0
    && RecordWithin(c.distanceFilters, DISTANCE_RANGE)
    && RecordWithin(c.targetFreshnessSeconds, FRESHNESS_RANGE)
    && Within(c.targetFreshnessSeconds.At(Live), LIVE_INTERVAL_RANGE)
    && Within(c.maxStaleSeconds, MAX_STALE_SECONDS_RANGE)
    && Within(c.liveSessionMaxSeconds, LIVE_MAX_RANGE)
    && Within(c.liveSessionUpdateIntervalSeconds, LIVE_INTERVAL_RANGE)
    && Within(c.lowBatteryThreshold, LOW_RANGE)
    && Within(c.criticalBatteryThreshold, CRITICAL_RANGE)
    && c.criticalBatteryThreshold < c.lowBatteryThreshold
    && Within(c.uploadBatchSize, BATCH_RANGE) && Integral(c.uploadBatchSize)
    && Within(c.minUploadIntervalSeconds, UPLOAD_INTERVAL_RANGE)
    && Within(c.maxAcceptableAccuracyMeters, ACCURACY_RANGE)
    && WellFormed(c.retry)
  }

  /** What the caller must supply: the two parts of the base that are copied through unclamped. */
  predicate GoodBase(base: Config) {
    base.configVersion >= 0 && WellFormed(base.retry)
  }

  lemma RetryInBounds(raw: Json, base: RetryPolicy)
    requires WellFormed(base)
    ensures WellFormed(ReadRetryPolicy(raw, base).value)
  {
  }

  lemma ReadClampedInBounds(raw: Json, range: Range, fallback: real, path: seq<Key>)
    requires range.min <= range.max
    ensures Within(ReadClamped(raw, range, fallback, path).value, range)
  {
  }

  lemma EntryInBounds(raw: Json, range: Range, base: StateRecord, path: seq<Key>, state: TrackingState)
    requires range.min <= range.max
    ensures Within(RecordEntry(raw, range, base, path, state), range)
  {
    ReadClampedInBounds(Field(AsObject(raw), StateKey(state)), range, base.At(state), path + [StateKey(state)]);
  }

  lemma RecordInBounds(raw: Json, range: Range, base: StateRecord, path: seq<Key>)
    requires range.min <= range.max
    ensures RecordWithin(RecordValue(raw, range, base, path), range)
  {
    forall state: TrackingState
      ensures RecordValue(raw, range, base, path).At(state) == RecordEntry(raw, range, base, path, state)
      ensures Within(RecordEntry(raw, range, base, path, state), range)
    {
      EntryInBounds(raw, range, base, path, state);
    }
  }

  lemma WithLiveInBounds(record: StateRecord)
    requires RecordWithin(record, FRESHNESS_RANGE)
    ensures RecordWithin(WithLive(record), FRESHNESS_RANGE)
    ensures Within(WithLive(record).At(Live), LIVE_INTERVAL_RANGE)
  {
  }

  lemma ThresholdsInBounds(source: Json, base: Config)
    ensures var (low, critical) := ReadThresholds(source, base).value;
            Within(low, LOW_RANGE) && Within(critical, CRITICAL_RANGE) && critical < low
  {
  }

  lemma ScalarsInBounds(source: Json, base: Config)
    ensures Within(ReadMaxStale(source, base).value, MAX_STALE_SECONDS_RANGE)
    ensures Within(ReadLiveMax(source, base).value, LIVE_MAX_RANGE)
    ensures Within(ReadLiveInterval(source, base).value, LIVE_INTERVAL_RANGE)
    ensures Within(ReadMinInterval(source, base).value, UPLOAD_INTERVAL_RANGE)
    ensures Within(ReadAccuracy(source, base).value, ACCURACY_RANGE)
  {
  }

  lemma BatchInBounds(source: Json, base: Config)
    ensures Within(ReadBatch(source, base).value, BATCH_RANGE) && Integral(ReadBatch(source, base).value)
  {
  }

  lemma ReadInBounds(source: Json, base: Config)
    requires GoodBase(base)
    ensures InBounds(ReadConfig(source, base))
  {
    ScalarsInBounds(source, base);
    BatchInBounds(source, base);
    RetryInBounds(Field(source, RetryKey), base.retry);
    RecordInBounds(Field(source, DistanceFiltersKey), DISTANCE_RANGE, base.distanceFilters, [DistanceFiltersKey]);
    RecordInBounds(Field(source, TargetFreshnessSecondsKey), FRESHNESS_RANGE, base.targetFreshnessSeconds,
      [TargetFreshnessSecondsKey]);
    WithLiveInBounds(TargetValue(source, base));
    ThresholdsInBounds(source, base);
  }

  /** Any untrusted value, merged onto a good base, meets every guardrail. */
  lemma ClampInBounds(remote: Json, base: Config)
    requires GoodBase(base)
    ensures InBounds(Clamp(remote, base).config)
  {
    ReadInBounds(if remote.Object? then remote else Object([], map[]), base);
  }

  /** The guarantee holds for every remote value exactly when the base is good. */
  lemma InBoundsForEveryRemoteExactly(base: Config)
    ensures (forall remote :: InBounds(Clamp(remote, base).config)) <==> GoodBase(base)
  {
    if GoodBase(base) {
      forall remote ensures InBounds(Clamp(remote, base).config) { ClampInBounds(remote, base); }
    } else {
      var remote := Object([RetryKey], map[RetryKey := Opaque]);
      var c := Clamp(remote, base).config;
      assert c.retry == base.retry && c.configVersion == base.configVersion;
      assert !InBounds(c);
    }
  }

  // ---- clamping is a projection ------------------------------------------

  function NumberOf(v: real): Json {
    Number(Finite(v))
  }

  function RecordField(record: StateRecord, key: Key): Json {
    if key.StateKey? then NumberOf(record.At(key.state)) else Undefined
  }

  function RecordJson(record: StateRecord): Json {
    Object(
      seq(|TRACKING_STATES|, i requires 0 <= i < |TRACKING_STATES| => StateKey(TRACKING_STATES[i])),
      map key | key in StateKeys() :: RecordField(record, key))
  }

  function StateKeys(): (keys: set<Key>)
    ensures forall key :: key in keys <==> key.StateKey?
  {
    set state: TrackingState | true :: StateKey(state)
  }

  function RetryField(p: RetryPolicy, key: Key): Json {
    match key
    case BaseDelayMsKey => NumberOf(p.baseDelayMs)
    case MaxDelayMsKey => NumberOf(p.maxDelayMs)
    case MultiplierKey => NumberOf(p.multiplier)
    case JitterRatioKey => NumberOf(p.jitterRatio)
    case MaxAttemptsKey => NumberOf(p.maxAttempts)
    case _ => Undefined
  }

  const RETRY_KEYS: seq<Key> := [BaseDelayMsKey, MaxDelayMsKey, MultiplierKey, JitterRatioKey, MaxAttemptsKey]

  function RetryJson(p: RetryPolicy): Json {
    Object(RETRY_KEYS, map key | key in RETRY_KEYS :: RetryField(p, key))
  }

  function ConfigField(c: Config, key: Key): Json {
    match key
    case ConfigVersionKey => NumberOf(c.configVersion as real)
    case DistanceFiltersKey => RecordJson(c.distanceFilters)
    case TargetFreshnessSecondsKey => RecordJson(c.targetFreshnessSeconds)
    case MaxStaleSecondsKey => NumberOf(c.maxStaleSeconds)
    case LiveSessionMaxSecondsKey => NumberOf(c.liveSessionMaxSeconds)
    case LiveSessionUpdateIntervalSecondsKey => NumberOf(c.liveSessionUpdateIntervalSeconds)
    case LowBatteryThresholdKey => NumberOf(c.lowBatteryThreshold)
    case CriticalBatteryThresholdKey => NumberOf(c.criticalBatteryThreshold)
    case UploadBatchSizeKey => NumberOf(c.uploadBatchSize)
    case MinUploadIntervalSecondsKey => NumberOf(c.minUploadIntervalSeconds)
    case RetryKey => RetryJson(c.retry)
    case MaxAcceptableAccuracyMetersKey => NumberOf(c.maxAcceptableAccuracyMeters)
    case _ => Undefined
  }

  /** The configuration as it would arrive over the network. */
  function ToJson(c: Config): Json {
    Object(KNOWN_KEYS, map key | key in KNOWN_KEYS :: ConfigField(c, key))
  }

  lemma KnownKeysExactly(key: Key)
    ensures key in KNOWN_KEYS <==> IsConfigKey(key)
  {
    if IsConfigKey(key) {
      var i := match key
        case ConfigVersionKey => 0
        case DistanceFiltersKey => 1
        case TargetFreshnessSecondsKey => 2
        case MaxStaleSecondsKey => 3
        case LiveSessionMaxSecondsKey => 4
        case LiveSessionUpdateIntervalSecondsKey => 5
        case LowBatteryThresholdKey => 6
        case CriticalBatteryThresholdKey => 7
        case UploadBatchSizeKey => 8
        case MinUploadIntervalSecondsKey => 9
        case RetryKey => 10
        case _ => 11;
      assert KNOWN_KEYS[i] == key;
    }
  }

  lemma {:induction false} NoUnknownKeys(keys: seq<Key>, known: Key -> bool, prefix: seq<Key>)
    ensures UnknownNotes(keys, known, prefix) == [] <==> forall key :: key in keys ==> known(key)
  {
    if keys != [] {
      NoUnknownKeys(keys[1..], known, prefix);
      assert keys == [keys[0]] + keys[1..];
    }
  }

  lemma {:induction false} NoStateNotes(states: seq<TrackingState>, source: Json, range: Range, base: StateRecord,
    path: seq<Key>)
    ensures StateNotes(states, source, range, base, path) == [] <==>
            forall state :: state in states ==> StateRead(source, range, base, path, state).notes == []
  {
    if states != [] {
      NoStateNotes(states[1..], source, range, base, path);
      assert states == [states[0]] + states[1..];
    }
  }

  lemma {:induction false} NoPinNotes(states: seq<TrackingState>, source: Json, range: Range, path: seq<Key>)
    ensures PinNotes(states, source, range, path) == [] <==>
            forall state :: state in states ==> PinNote(source, range, path, state) == []
  {
    if states != [] {
      NoPinNotes(states[1..], source, range, path);
      assert states == [states[0]] + states[1..];
    }
  }

  lemma EveryStateListed(state: TrackingState)
    ensures state in TRACKING_STATES
  {
    var i := match state
      case Disabled => 0
      case PermissionRequired => 1
      case Stationary => 2
      case Passive => 3
      case Walking => 4
      case Transit => 5
      case Live => 6
      case LowBattery => 7
      case CriticalBattery => 8
      case Offline => 9
      case Stale => 10;
    assert TRACKING_STATES[i] == state;
  }

  /** A record is accepted silently exactly when it is usable as delivered, state by state. */
  lemma RecordSilentExactly(raw: Json, range: Range, base: StateRecord, path: seq<Key>)
    ensures RecordNotes(raw, range, base, path) == [] <==>
            && (Absent(raw) || raw.Object?)
            && (forall key :: key in AsObject(raw).keys ==> key.StateKey?)
            && (forall state: TrackingState ::
                  && StateRead(AsObject(raw), range, base, path, state).notes == []
                  && PinNote(AsObject(raw), range, path, state) == [])
  {
    var source := AsObject(raw);
    var known := (key: Key) => key.StateKey?;
    NoUnknownKeys(source.keys, known, path);
    NoStateNotes(TRACKING_STATES, source, range, base, path);
    NoPinNotes(TRACKING_STATES, source, range, path);
    forall state: TrackingState ensures state in TRACKING_STATES { EveryStateListed(state); }
  }

  /** The object spells out the record, and nothing else. */
  ghost predicate SpellsRecord(raw: Json, record: StateRecord) {
    && raw.Object?
    && (forall key :: key in raw.keys ==> key.StateKey?)
    && (forall state: TrackingState :: Field(raw, StateKey(state)) == NumberOf(record.At(state)))
  }

  lemma RecordJsonSpells(record: StateRecord)
    ensures SpellsRecord(RecordJson(record), record)
  {
  }

  lemma TabulateEqual(f: TrackingState -> real, record: StateRecord)
    requires forall state: TrackingState :: f(state) == record.At(state)
    ensures Tabulate(f) == record
  {
    RecordsEqual(Tabulate(f), record);
  }

  lemma RecordValueProjects(raw: Json, record: StateRecord, range: Range, base: StateRecord, path: seq<Key>)
    requires forall state: TrackingState :: RecordEntry(raw, range, base, path, state) == record.At(state)
    ensures RecordValue(raw, range, base, path) == record
  {
    TabulateEqual(Entries(raw, range, base, path), record);
  }

  lemma RecordProjects(raw: Json, record: StateRecord, range: Range, base: StateRecord, path: seq<Key>)
    requires RecordWithin(record, range) && SpellsRecord(raw, record)
    ensures RecordValue(raw, range, base, path) == record
    ensures RecordNotes(raw, range, base, path) == []
  {
    forall state: TrackingState
      ensures RecordEntry(raw, range, base, path, state) == record.At(state)
      ensures StateRead(AsObject(raw), range, base, path, state).notes == []
      ensures PinNote(AsObject(raw), range, path, state) == []
    {
      assert Field(raw, StateKey(state)) == NumberOf(record.At(state));
    }
    RecordValueProjects(raw, record, range, base, path);
    RecordSilentExactly(raw, range, base, path);
  }

  lemma RecordInherits(record: StateRecord, range: Range, path: seq<Key>)
    requires RecordWithin(record, range)
    ensures RecordValue(Undefined, range, record, path) == record
    ensures RecordNotes(Undefined, range, record, path) == []
  {
    forall state: TrackingState
      ensures StateRead(AsObject(Undefined), range, record, path, state) == Read(record.At(state), [])
      ensures RecordEntry(Undefined, range, record, path, state) == record.At(state)
    {
    }
    RecordValueProjects(Undefined, record, range, record, path);
    RecordSilentExactly(Undefined, range, record, path);
  }

  lemma WithLiveKeeps(record: StateRecord)
    requires Within(record.At(Live), LIVE_INTERVAL_RANGE)
    ensures WithLive(record) == record && LiveNotes(record.At(Live)) == []
  {
  }

  lemma IntegralRounds(v: real)
    requires Integral(v)
    ensures Round(v) as real == v
  {
    var n := v.Floor;
    assert (n as real + 0.5).Floor == n;
  }

  predicate SpellsRetry(raw: Json, p: RetryPolicy) {
    && raw.Object?
    && Field(raw, BaseDelayMsKey) == NumberOf(p.baseDelayMs)
    && Field(raw, MaxDelayMsKey) == NumberOf(p.maxDelayMs)
    && Field(raw, MultiplierKey) == NumberOf(p.multiplier)
    && Field(raw, JitterRatioKey) == NumberOf(p.jitterRatio)
    && Field(raw, MaxAttemptsKey) == NumberOf(p.maxAttempts)
  }

  lemma RetryJsonField(p: RetryPolicy, key: Key)
    requires key in RETRY_KEYS
    ensures Field(RetryJson(p), key) == RetryField(p, key)
  {
  }

  lemma RetryFieldsSpell(raw: Json, p: RetryPolicy)
    requires raw.Object? && forall key :: key in RETRY_KEYS ==> Field(raw, key) == RetryField(p, key)
    ensures SpellsRetry(raw, p)
  {
    assert RETRY_KEYS[0] == BaseDelayMsKey && RETRY_KEYS[1] == MaxDelayMsKey && RETRY_KEYS[2] == MultiplierKey;
    assert RETRY_KEYS[3] == JitterRatioKey && RETRY_KEYS[4] == MaxAttemptsKey;
  }

  lemma RetryJsonSpells(p: RetryPolicy)
    ensures SpellsRetry(RetryJson(p), p)
  {
    forall key | key in RETRY_KEYS ensures Field(RetryJson(p), key) == RetryField(p, key) { RetryJsonField(p, key); }
    RetryFieldsSpell(RetryJson(p), p);
  }

  lemma RetryProjects(raw: Json, p: RetryPolicy, base: RetryPolicy)
    requires WellFormed(p) && (SpellsRetry(raw, p) || (raw == Undefined && base == p))
    ensures ReadRetryPolicy(raw, base) == Read(p, [])
  {
    IntegralRounds(p.maxAttempts);
  }

  // A field delivers `v` if it holds `v`, or is absent and the base already has `v`.

  predicate DeliversNumber(raw: Json, v: real, base: real) {
    raw == NumberOf(v) || (Absent(raw) && base == v)
  }

  ghost predicate DeliversRecord(raw: Json, record: StateRecord, base: StateRecord) {
    SpellsRecord(raw, record) || (raw == Undefined && base == record)
  }

  ghost predicate DeliversRecords(source: Json, c: Config, base: Config) {
    && DeliversRecord(Field(source, DistanceFiltersKey), c.distanceFilters, base.distanceFilters)
    && DeliversRecord(Field(source, TargetFreshnessSecondsKey), c.targetFreshnessSeconds, base.targetFreshnessSeconds)
  }

  predicate DeliversScalars(source: Json, c: Config, base: Config) {
    && DeliversNumber(Field(source, MaxStaleSecondsKey), c.maxStaleSeconds, base.maxStaleSeconds)
    && DeliversNumber(Field(source, LiveSessionMaxSecondsKey), c.liveSessionMaxSeconds, base.liveSessionMaxSeconds)
    && DeliversNumber(Field(source, LiveSessionUpdateIntervalSecondsKey), c.liveSessionUpdateIntervalSeconds,
      base.liveSessionUpdateIntervalSeconds)
    && DeliversNumber(Field(source, MinUploadIntervalSecondsKey), c.minUploadIntervalSeconds,
      base.minUploadIntervalSeconds)
    && DeliversNumber(Field(source, MaxAcceptableAccuracyMetersKey), c.maxAcceptableAccuracyMeters,
      base.maxAcceptableAccuracyMeters)
  }

  predicate DeliversRelated(source: Json, c: Config, base: Config) {
    && DeliversNumber(Field(source, ConfigVersionKey), c.configVersion as real, base.configVersion as real)
    && DeliversNumber(Field(source, LowBatteryThresholdKey), c.lowBatteryThreshold, base.lowBatteryThreshold)
    && DeliversNumber(Field(source, CriticalBatteryThresholdKey), c.criticalBatteryThreshold,
      base.criticalBatteryThreshold)
  }

  predicate DeliversOthers(source: Json, c: Config, base: Config) {
    && DeliversRelated(source, c, base)
    && (|| SpellsRetry(Field(source, RetryKey), c.retry)
        || (Field(source, RetryKey) == Undefined && base.retry == c.retry))
  }

  /** `source` over `base` spells out `c`. */
  ghost predicate Delivers(source: Json, c: Config, base: Config) {
    && source.Object?
    && (forall key :: key in source.keys ==> IsConfigKey(key))
    && DeliversRecords(source, c, base)
    && DeliversScalars(source, c, base)
    && DeliversOthers(source, c, base)
    && DeliversNumber(Field(source, UploadBatchSizeKey), c.uploadBatchSize, base.uploadBatchSize)
  }

  lemma JsonField(c: Config, key: Key)
    requires IsConfigKey(key)
    ensures Field(ToJson(c), key) == ConfigField(c, key)
  {
    KnownKeysExactly(key);
  }

  lemma JsonDeliversScalars(c: Config, base: Config)
    ensures DeliversScalars(ToJson(c), c, base)
  {
    JsonField(c, MaxStaleSecondsKey);
    JsonField(c, LiveSessionMaxSecondsKey);
    JsonField(c, LiveSessionUpdateIntervalSecondsKey);
    JsonField(c, MinUploadIntervalSecondsKey);
    JsonField(c, MaxAcceptableAccuracyMetersKey);
  }

  lemma JsonDeliversRecords(c: Config, base: Config)
    ensures DeliversRecords(ToJson(c), c, base)
  {
    JsonField(c, DistanceFiltersKey);
    JsonField(c, TargetFreshnessSecondsKey);
    RecordJsonSpells(c.distanceFilters);
    RecordJsonSpells(c.targetFreshnessSeconds);
  }

  lemma JsonDeliversOthers(c: Config, base: Config)
    ensures DeliversOthers(ToJson(c), c, base)
    ensures DeliversNumber(Field(ToJson(c), UploadBatchSizeKey), c.uploadBatchSize, base.uploadBatchSize)
  {
    JsonField(c, ConfigVersionKey);
    JsonField(c, LowBatteryThresholdKey);
    JsonField(c, CriticalBatteryThresholdKey);
    JsonField(c, RetryKey);
    JsonField(c, UploadBatchSizeKey);
    RetryJsonSpells(c.retry);
  }

  lemma JsonDelivers(c: Config, base: Config)
    ensures Delivers(ToJson(c), c, base)
  {
    JsonDeliversScalars(c, base);
    JsonDeliversRecords(c, base);
    JsonDeliversOthers(c, base);
    forall key | key in ToJson(c).keys ensures IsConfigKey(key) { KnownKeysExactly(key); }
  }

  lemma RecordDelivered(raw: Json, record: StateRecord, range: Range, base: StateRecord, path: seq<Key>)
    requires RecordWithin(record, range) && DeliversRecord(raw, record, base)
    ensures RecordValue(raw, range, base, path) == record && RecordNotes(raw, range, base, path) == []
  {
    if raw == Undefined {
      RecordInherits(record, range, path);
    } else {
      RecordProjects(raw, record, range, base, path);
    }
  }

  lemma DistanceProjects(source: Json, c: Config, base: Config)
    requires InBounds(c) && DeliversRecord(Field(source, DistanceFiltersKey), c.distanceFilters, base.distanceFilters)
    ensures DistanceValue(source, base) == c.distanceFilters && DistanceNotes(source, base) == []
  {
    RecordDelivered(Field(source, DistanceFiltersKey), c.distanceFilters, DISTANCE_RANGE, base.distanceFilters,
      [DistanceFiltersKey]);
  }

  lemma FreshnessProjects(source: Json, c: Config, base: Config)
    requires InBounds(c)
    requires DeliversRecord(Field(source, TargetFreshnessSecondsKey), c.targetFreshnessSeconds,
      base.targetFreshnessSeconds)
    ensures WithLive(TargetValue(source, base)) == c.targetFreshnessSeconds
    ensures TargetNotes(source, base) + LiveNotes(TargetValue(source, base).At(Live)) == []
  {
    RecordDelivered(Field(source, TargetFreshnessSecondsKey), c.targetFreshnessSeconds, FRESHNESS_RANGE,
                    base.targetFreshnessSeconds, [TargetFreshnessSecondsKey]);
    WithLiveKeeps(c.targetFreshnessSeconds);
  }

  lemma ScalarsProject(source: Json, c: Config, base: Config)
    requires InBounds(c) && DeliversScalars(source, c, base)
    ensures ReadMaxStale(source, base) == Read(c.maxStaleSeconds, [])
    ensures ReadLiveMax(source, base) == Read(c.liveSessionMaxSeconds, [])
    ensures ReadLiveInterval(source, base) == Read(c.liveSessionUpdateIntervalSeconds, [])
    ensures ReadMinInterval(source, base) == Read(c.minUploadIntervalSeconds, [])
    ensures ReadAccuracy(source, base) == Read(c.maxAcceptableAccuracyMeters, [])
  {
  }

  lemma RelatedProject(source: Json, c: Config, base: Config)
    requires InBounds(c) && DeliversRelated(source, c, base)
    ensures ReadVersion(Field(source, ConfigVersionKey), base.configVersion) == Read(c.configVersion, [])
    ensures ReadThresholds(source, base) == Read((c.lowBatteryThreshold, c.criticalBatteryThreshold), [])
  {
  }

  lemma OthersProject(source: Json, c: Config, base: Config)
    requires InBounds(c) && DeliversOthers(source, c, base)
    ensures ReadVersion(Field(source, ConfigVersionKey), base.configVersion) == Read(c.configVersion, [])
    ensures ReadThresholds(source, base) == Read((c.lowBatteryThreshold, c.criticalBatteryThreshold), [])
    ensures ReadRetryPolicy(Field(source, RetryKey), base.retry) == Read(c.retry, [])
  {
    hide InBounds, DeliversRelated, ReadThresholds, ReadVersion;
    RelatedProject(source, c, base);
    InBoundsRetry(c);
    RetryProjects(Field(source, RetryKey), c.retry, base.retry);
  }

  lemma InBoundsRetry(c: Config)
    requires InBounds(c)
    ensures WellFormed(c.retry)
  {
  }

  lemma BatchProjects(source: Json, c: Config, base: Config)
    requires InBounds(c)
    requires DeliversNumber(Field(source, UploadBatchSizeKey), c.uploadBatchSize, base.uploadBatchSize)
    ensures ReadBatch(source, base) == Read(c.uploadBatchSize, [])
  {
    IntegralRounds(c.uploadBatchSize);
  }

  lemma DeliveredProjects(source: Json, c: Config, base: Config)
    requires InBounds(c) && Delivers(source, c, base)
    ensures ReadConfig(source, base) == c && ReadNotes(source, base) == []
  {
    DistanceProjects(source, c, base);
    FreshnessProjects(source, c, base);
    ScalarsProject(source, c, base);
    OthersProject(source, c, base);
    BatchProjects(source, c, base);
    NoUnknownKeys(source.keys, IsConfigKey, []);
  }

  lemma ClampDelivered(remote: Json, c: Config, base: Config)
    requires InBounds(c) && (Absent(remote) || remote.Object?) && Delivers(AsObject(remote), c, base)
    ensures Clamp(remote, base) == ClampResult(c, [], true)
  {
    DeliveredProjects(AsObject(remote), c, base);
  }

  lemma JsonProjects(c: Config, base: Config)
    requires InBounds(c)
    ensures Clamp(ToJson(c), base) == ClampResult(c, [], true)
  {
    JsonDelivers(c, base);
    ClampDelivered(ToJson(c), c, base);
  }

  lemma AbsentProjects(c: Config)
    requires InBounds(c)
    ensures Clamp(Undefined, c) == ClampResult(c, [], true)
  {
    ClampDelivered(Undefined, c, c);
  }

  /** Clamping a clamped configuration again, over any base, returns it unchanged and reports nothing. */
  lemma ClampIsProjection(remote: Json, base: Config, other: Config)
    requires GoodBase(base)
    ensures var c := Clamp(remote, base).config;
            && Clamp(ToJson(c), other) == ClampResult(c, [], true)
            && Clamp(Undefined, c) == ClampResult(c, [], true)
  {
    ClampInBounds(remote, base);
    var c := Clamp(remote, base).config;
    JsonProjects(c, other);
    AbsentProjects(c);
  }

  /** The configurations that clamping leaves alone are exactly those within every guardrail. */
  lemma FixedPointsExactly(c: Config, base: Config)
    requires GoodBase(base)
    ensures Clamp(ToJson(c), base).config == c <==> InBounds(c)
  {
    if InBounds(c) {
      JsonProjects(c, base);
    } else {
      ClampInBounds(ToJson(c), base);
    }
  }

  // ---- an accepted configuration keeps what it was given -----------------

  /** If the field holds a number, the configuration has that number. */
  predicate KeepsNumber(raw: Json, v: real) {
    raw.Number? ==> raw.number == Finite(v)
  }

  predicate SuppliedIntegral(raw: Json) {
    raw.Number? && raw.number.Finite? ==> Integral(raw.number.value)
  }

  predicate KeepsRecord(raw: Json, record: StateRecord) {
    forall state: TrackingState :: KeepsNumber(Field(raw, StateKey(state)), record.At(state))
  }

  /** Every supplied number except the two counts, which are rounded silently. */
  predicate KeepsNumbers(source: Json, c: Config) {
    && KeepsNumber(Field(source, ConfigVersionKey), c.configVersion as real)
    && KeepsRecord(Field(source, DistanceFiltersKey), c.distanceFilters)
    && KeepsRecord(Field(source, TargetFreshnessSecondsKey), c.targetFreshnessSeconds)
    && KeepsNumber(Field(source, MaxStaleSecondsKey), c.maxStaleSeconds)
    && KeepsNumber(Field(source, LiveSessionMaxSecondsKey), c.liveSessionMaxSeconds)
    && KeepsNumber(Field(source, LiveSessionUpdateIntervalSecondsKey), c.liveSessionUpdateIntervalSeconds)
    && KeepsNumber(Field(source, LowBatteryThresholdKey), c.lowBatteryThreshold)
    && KeepsNumber(Field(source, CriticalBatteryThresholdKey), c.criticalBatteryThreshold)
    && KeepsNumber(Field(source, MinUploadIntervalSecondsKey), c.minUploadIntervalSeconds)
    && KeepsNumber(Field(source, MaxAcceptableAccuracyMetersKey), c.maxAcceptableAccuracyMeters)
    && KeepsNumber(Field(Field(source, RetryKey), BaseDelayMsKey), c.retry.baseDelayMs)
    && KeepsNumber(Field(Field(source, RetryKey), MaxDelayMsKey), c.retry.maxDelayMs)
    && KeepsNumber(Field(Field(source, RetryKey), MultiplierKey), c.retry.multiplier)
    && KeepsNumber(Field(Field(source, RetryKey), JitterRatioKey), c.retry.jitterRatio)
  }

  predicate KeepsCounts(source: Json, c: Config) {
    && KeepsNumber(Field(source, UploadBatchSizeKey), c.uploadBatchSize)
    && KeepsNumber(Field(Field(source, RetryKey), MaxAttemptsKey), c.retry.maxAttempts)
  }

  lemma AcceptedKeepsEntry(raw: Json, range: Range, base: StateRecord, path: seq<Key>, state: TrackingState)
    requires Absent(raw) || raw.Object?
    requires StateRead(AsObject(raw), range, base, path, state).notes == []
    requires PinNote(AsObject(raw), range, path, state) == []
    ensures KeepsNumber(Field(raw, StateKey(state)), RecordEntry(raw, range, base, path, state))
  {
  }

  lemma AcceptedKeepsRecord(raw: Json, range: Range, base: StateRecord, path: seq<Key>)
    requires RecordNotes(raw, range, base, path) == []
    ensures KeepsRecord(raw, RecordValue(raw, range, base, path))
  {
    RecordSilentExactly(raw, range, base, path);
    forall state: TrackingState
      ensures KeepsNumber(Field(raw, StateKey(state)), Entries(raw, range, base, path)(state))
    {
      AcceptedKeepsEntry(raw, range, base, path, state);
    }
  }

  lemma AcceptedKeepsRetry(raw: Json, base: RetryPolicy)
    requires ReadRetryPolicy(raw, base).notes == []
    ensures var p := ReadRetryPolicy(raw, base).value;
            && KeepsNumber(Field(raw, BaseDelayMsKey), p.baseDelayMs)
            && KeepsNumber(Field(raw, MaxDelayMsKey), p.maxDelayMs)
            && KeepsNumber(Field(raw, MultiplierKey), p.multiplier)
            && KeepsNumber(Field(raw, JitterRatioKey), p.jitterRatio)
            && (KeepsNumber(Field(raw, MaxAttemptsKey), p.maxAttempts) <==>
              SuppliedIntegral(Field(raw, MaxAttemptsKey)))
  {
  }

  lemma AcceptedKeepsScalars(source: Json, base: Config)
    requires ReadMaxStale(source, base).notes == [] && ReadLiveMax(source, base).notes == []
    requires ReadLiveInterval(source, base).notes == [] && ReadMinInterval(source, base).notes == []
    requires ReadAccuracy(source, base).notes == []
    ensures KeepsNumber(Field(source, MaxStaleSecondsKey), ReadMaxStale(source, base).value)
    ensures KeepsNumber(Field(source, LiveSessionMaxSecondsKey), ReadLiveMax(source, base).value)
    ensures KeepsNumber(Field(source, LiveSessionUpdateIntervalSecondsKey), ReadLiveInterval(source, base).value)
    ensures KeepsNumber(Field(source, MinUploadIntervalSecondsKey), ReadMinInterval(source, base).value)
    ensures KeepsNumber(Field(source, MaxAcceptableAccuracyMetersKey), ReadAccuracy(source, base).value)
  {
  }

  lemma AcceptedKeepsOthers(source: Json, base: Config)
    requires ReadVersion(Field(source, ConfigVersionKey), base.configVersion).notes == []
    requires ReadThresholds(source, base).notes == [] && ReadBatch(source, base).notes == []
    ensures KeepsNumber(Field(source, ConfigVersionKey),
      ReadVersion(Field(source, ConfigVersionKey), base.configVersion).value as real)
    ensures KeepsNumber(Field(source, LowBatteryThresholdKey), ReadThresholds(source, base).value.0)
    ensures KeepsNumber(Field(source, CriticalBatteryThresholdKey), ReadThresholds(source, base).value.1)
    ensures KeepsNumber(Field(source, UploadBatchSizeKey), ReadBatch(source, base).value) <==>
            SuppliedIntegral(Field(source, UploadBatchSizeKey))
  {
  }

  /** An accepted configuration keeps every supplied number; the two counts exactly when they were integral. */
  lemma AcceptedKeepsEveryNumber(remote: Json, base: Config)
    requires Clamp(remote, base).accepted
    ensures KeepsNumbers(remote, Clamp(remote, base).config)
    ensures KeepsCounts(remote, Clamp(remote, base).config) <==>
            && SuppliedIntegral(Field(remote, UploadBatchSizeKey))
            && SuppliedIntegral(Field(Field(remote, RetryKey), MaxAttemptsKey))
  {
    var source := AsObject(remote);
    AllSilent(source, base);
    AcceptedKeepsRecord(Field(source, DistanceFiltersKey), DISTANCE_RANGE, base.distanceFilters, [DistanceFiltersKey]);
    AcceptedKeepsRecord(Field(source, TargetFreshnessSecondsKey), FRESHNESS_RANGE, base.targetFreshnessSeconds,
      [TargetFreshnessSecondsKey]);
    WithLiveKeepsWhenSilent(TargetValue(source, base));
    AcceptedKeepsScalars(source, base);
    AcceptedKeepsOthers(source, base);
    AcceptedKeepsRetry(Field(source, RetryKey), base.retry);
  }

  lemma WithLiveKeepsWhenSilent(record: StateRecord)
    requires LiveNotes(record.At(Live)) == []
    ensures WithLive(record) == record
  {
  }

  lemma AllSilent(source: Json, base: Config)
    requires source.Object? && ReadNotes(source, base) == []
    ensures ReadVersion(Field(source, ConfigVersionKey), base.configVersion).notes == []
    ensures DistanceNotes(source, base) == []
    ensures TargetNotes(source, base) == []
    ensures LiveNotes(TargetValue(source, base).At(Live)) == []
    ensures ReadMaxStale(source, base).notes == [] && ReadLiveMax(source, base).notes == []
    ensures ReadLiveInterval(source, base).notes == [] && ReadThresholds(source, base).notes == []
    ensures ReadBatch(source, base).notes == [] && ReadMinInterval(source, base).notes == []
    ensures ReadAccuracy(source, base).notes == []
    ensures ReadRetryPolicy(Field(source, RetryKey), base.retry).notes == []
  {
  }

  /** A source that names the two counts at most. */
  ghost predicate OnlyCounts(source: Json) {
    && source.Object?
    && (forall key :: key in source.keys ==> IsConfigKey(key))
    && (forall key :: key != UploadBatchSizeKey && key != RetryKey ==> Field(source, key) == Undefined)
  }

  lemma OnlyCountsDelivered(source: Json, base: Config, size: real, retry: RetryPolicy)
    requires InBounds(base) && OnlyCounts(source)
    requires ReadBatch(source, base) == Read(size, [])
    requires ReadRetryPolicy(Field(source, RetryKey), base.retry) == Read(retry, [])
    ensures Clamp(source, base) == ClampResult(base.(uploadBatchSize := size, retry := retry), [], true)
  {
    hide InBounds, DeliversRecords, DeliversScalars, DeliversRelated, ReadBatch, ReadRetryPolicy, ReadThresholds,
      ReadVersion, ReadMaxStale, ReadLiveMax, ReadLiveInterval, ReadMinInterval, ReadAccuracy;
    AbsentDelivers(source, base);
    DistanceProjects(source, base, base);
    FreshnessProjects(source, base, base);
    ScalarsProject(source, base, base);
    RelatedProject(source, base, base);
    NoUnknownKeys(source.keys, IsConfigKey, []);
    assert ReadConfig(source, base) == base.(uploadBatchSize := size, retry := retry);
  }

  lemma AbsentDelivers(source: Json, base: Config)
    requires OnlyCounts(source)
    ensures DeliversRecords(source, base, base) && DeliversScalars(source, base, base)
    ensures DeliversRelated(source, base, base)
    ensures DeliversRecord(Field(source, DistanceFiltersKey), base.distanceFilters, base.distanceFilters)
    ensures DeliversRecord(
              Field(source, TargetFreshnessSecondsKey), base.targetFreshnessSeconds, base.targetFreshnessSeconds)
  {
  }

  /** The silent rounding, concretely: a batch size of 2.5 is accepted and becomes 3. */
  lemma FractionalBatchSizeIsAccepted(base: Config)
    requires InBounds(base)
    ensures var result := Clamp(Object([UploadBatchSizeKey], map[UploadBatchSizeKey := NumberOf(2.5)]), base);
            result.accepted && result.config == base.(uploadBatchSize := 3.0)
  {
    var source := Object([UploadBatchSizeKey], map[UploadBatchSizeKey := NumberOf(2.5)]);
    assert (2.5 + 0.5).Floor == 3;
    RetryInherits(base.retry);
    OnlyCountsDelivered(source, base, 3.0, base.retry);
  }

  lemma RetryInherits(p: RetryPolicy)
    requires WellFormed(p)
    ensures ReadRetryPolicy(Undefined, p) == Read(p, [])
  {
    RetryProjects(Undefined, p, p);
  }

  /** And of attempts: a `retry.maxAttempts` of 2.5 is accepted and becomes 3. */
  lemma FractionalMaxAttemptsIsAccepted(base: Config)
    requires InBounds(base)
    ensures var retry := Object([MaxAttemptsKey], map[MaxAttemptsKey := NumberOf(2.5)]);
            var result := Clamp(Object([RetryKey], map[RetryKey := retry]), base);
            result.accepted && result.config == base.(retry := base.retry.(maxAttempts := 3.0))
  {
    hide InBounds, ReadBatch, ReadRetryPolicy, Clamp;
    var retry := Object([MaxAttemptsKey], map[MaxAttemptsKey := NumberOf(2.5)]);
    var source := Object([RetryKey], map[RetryKey := retry]);
    InBoundsRetry(base);
    OnlyAttemptsRead(retry, base.retry);
    BatchProjects(source, base, base);
    OnlyCountsDelivered(source, base, base.uploadBatchSize, base.retry.(maxAttempts := 3.0));
  }

  lemma OnlyAttemptsRead(raw: Json, base: RetryPolicy)
    requires raw == Object([MaxAttemptsKey], map[MaxAttemptsKey := NumberOf(2.5)]) && WellFormed(base)
    ensures ReadRetryPolicy(raw, base) == Read(base.(maxAttempts := 3.0), [])
  {
    assert (2.5 + 0.5).Floor == 3;
    assert forall key :: key != MaxAttemptsKey ==> Field(raw, key) == Undefined;
  }

  /** A base that is not good, concretely: its 100 attempts survive a remote `retry` that is not an object. */
  lemma BadBaseSurvives(base: Config)
    requires base.retry.maxAttempts == 100.0
    ensures var result := Clamp(Object([RetryKey], map[RetryKey := Opaque]), base);
            result.config.retry.maxAttempts == 100.0 && !InBounds(result.config)
  {
    hide DistanceValue, TargetValue, WithLive, ReadThresholds, ReadVersion, ReadMaxStale, ReadLiveMax,
      ReadLiveInterval, ReadBatch, ReadMinInterval, ReadAccuracy, ReadNotes, InBounds;
    var c := Clamp(Object([RetryKey], map[RetryKey := Opaque]), base).config;
    assert c.retry == base.retry;
    if InBounds(c) { InBoundsRetry(c); }
  }
}
