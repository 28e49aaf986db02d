/** The outbound queue's operations as steps on values (packages/location-core/src/queue.ts). */
module QueueModel {
  import opened Basics
  import opened Limits
  import opened RetryPolicies
  import opened QueueTypes
  import opened QueueListing
  import opened QueueSelection
  import opened QueueRetention
  import opened QueueBackoff

  // ---- configuration -----------------------------------------------------

  datatype QueueOptions = QueueOptions(
    deviceId: Option<string>,
    maxEvents: Option<Num>,
    maxAgeHours: Option<Num>,
    maxAttempts: Option<Num>,
    maxBatchSize: Option<Num>,
    minUploadIntervalSeconds: Option<Num>,
    retry: Option<PartialRetryPolicy>
  )

  datatype QueueConfig = QueueConfig(
    deviceId: Option<string>,
    maxEvents: nat,
    maxAgeHours: real,
    maxAttempts: nat,
    maxBatchSize: nat,
    minUploadIntervalMs: real,
    retry: RetryPolicy,
    hash: string -> string
  )

  function Configure(options: QueueOptions, hash: string -> string): QueueConfig {
    QueueConfig(
      options.deviceId,
      ClampInt(FiniteOr(options.maxEvents, MAX_QUEUED_EVENTS as real).Floor, 1, MAX_QUEUED_EVENTS),
      Min(MAX_QUEUE_AGE_HOURS, Max(0.0, FiniteOr(options.maxAgeHours, MAX_QUEUE_AGE_HOURS))),
      ClampInt(FiniteOr(options.maxAttempts, MAX_UPLOAD_ATTEMPTS as real).Floor, 1, MAX_UPLOAD_ATTEMPTS),
      ClampInt(FiniteOr(options.maxBatchSize, MAX_EVENTS_PER_BATCH as real).Floor, 1, MAX_EVENTS_PER_BATCH),
      Max(MIN_UPLOAD_INTERVAL_SECONDS,
        FiniteOr(options.minUploadIntervalSeconds, MIN_UPLOAD_INTERVAL_SECONDS)) * 1000.0,
      ClampRetryPolicy(options.retry),
      hash)
  }

  /** The platform limits, which no option widens. */
  ghost predicate WithinLimits(cfg: QueueConfig) {
    && 1 <= cfg.maxEvents <= MAX_QUEUED_EVENTS
    && 0.0 <= cfg.maxAgeHours <= MAX_QUEUE_AGE_HOURS
    && 1 <= cfg.maxAttempts <= MAX_UPLOAD_ATTEMPTS
    && 1 <= cfg.maxBatchSize <= MAX_EVENTS_PER_BATCH
    && cfg.minUploadIntervalMs >= MIN_UPLOAD_INTERVAL_SECONDS * 1000.0
    && WellFormed(cfg.retry)
  }

  lemma ConfigureWithinLimits(options: QueueOptions, hash: string -> string)
    ensures WithinLimits(Configure(options, hash))
  {
    hide ClampRetryPolicy;
    ClampedWellFormed(options.retry);
  }

  /** Options are taken as they are, in whole numbers and as near as the platform limits allow. */
  lemma ConfigureExactly(options: QueueOptions, hash: string -> string)
    ensures var cfg := Configure(options, hash);
            && WholeFrom(cfg.maxEvents, options.maxEvents, Range(1.0, MAX_QUEUED_EVENTS as real))
            && WholeFrom(cfg.maxAttempts, options.maxAttempts, Range(1.0, MAX_UPLOAD_ATTEMPTS as real))
            && WholeFrom(cfg.maxBatchSize, options.maxBatchSize, Range(1.0, MAX_EVENTS_PER_BATCH as real))
            && Nearest(cfg.maxAgeHours, FiniteOr(options.maxAgeHours, MAX_QUEUE_AGE_HOURS),
                 Range(0.0, MAX_QUEUE_AGE_HOURS))
            && cfg.minUploadIntervalMs >= 30000.0
            && (forall s :: options.minUploadIntervalSeconds == Some(Finite(s)) && s >= 30.0 ==>
                  cfg.minUploadIntervalMs == s * 1000.0)
            && (forall s :: options.minUploadIntervalSeconds == Some(Finite(s)) && s < 30.0 ==>
                  cfg.minUploadIntervalMs == 30000.0)
  {
    hide Nearest, ClampRetryPolicy;
    WholeIsNearest(options.maxEvents, 1, MAX_QUEUED_EVENTS);
    WholeIsNearest(options.maxAttempts, 1, MAX_UPLOAD_ATTEMPTS);
    WholeIsNearest(options.maxBatchSize, 1, MAX_EVENTS_PER_BATCH);
    ClampIsNearest(FiniteOr(options.maxAgeHours, MAX_QUEUE_AGE_HOURS), Range(0.0, MAX_QUEUE_AGE_HOURS));
  }

  function CapsFor(cfg: QueueConfig): Caps {
    Caps(cfg.maxEvents, cfg.maxAgeHours * 3600000.0, cfg.maxAttempts)
  }

  /** What the queue passes to `pruneForRetention`. */
  function RetentionFor(cfg: QueueConfig): RetentionOptions {
    RetentionOptions(Some(Finite(cfg.maxEvents as real)), Some(Finite(cfg.maxAgeHours)),
      Some(Finite(cfg.maxAttempts as real)))
  }

  lemma CapsAreConfigured(cfg: QueueConfig)
    requires WithinLimits(cfg)
    ensures CapsOf(RetentionFor(cfg)) == CapsFor(cfg)
  {
  }

  // ---- state -------------------------------------------------------------

  datatype QueueState = QueueState(records: Records, meta: Option<Meta>)

  const EMPTY_QUEUE := QueueState(map[], None)

  function MetaOf(st: QueueState): Meta {
    if st.meta.Some? then st.meta.value else DEFAULT_QUEUE_META
  }

  function PutAll(m: Records, records: seq<QueuedEvent>): Records
    decreases |records|
  {
    if records == [] then m else PutAll(m[IdOf(records[0]) := records[0]], records[1..])
  }

  function SetOf(ids: seq<string>): set<string> {
    set id | id in ids
  }

  function IdsOf(dropped: seq<Dropped>): seq<string> {
    if dropped == [] then [] else [dropped[0].eventId] + IdsOf(dropped[1..])
  }

  // ---- enqueue -----------------------------------------------------------

  /** An event as submitted; its sequence number may be any number. */
  datatype Submission = Submission(
    eventId: string,
    deviceId: string,
    sequenceNumber: Num,
    capturedAt: string,
    capturedAtMs: Option<real>,
    fix: string
  )

  datatype Rejection = InvalidSequence | InvalidTimestamp | DeviceMismatch

  datatype EnqueueResult = EnqueueResult(queued: bool, rejectedReason: Option<Rejection>,
    droppedEventIds: seq<string>, pendingCount: nat)

  /** `Number.isInteger(n) && n >= 0` */
  predicate IsSequence(n: Num) {
    n.Finite? && Integral(n.value) && n.value >= 0.0
  }

  function Refusal(cfg: QueueConfig, s: Submission): Option<Rejection> {
    if cfg.deviceId.Some? && s.deviceId != cfg.deviceId.value then Some(DeviceMismatch)
    else if !IsSequence(s.sequenceNumber) then Some(InvalidSequence)
    else if s.capturedAtMs.None? then Some(InvalidTimestamp)
    else None
  }

  function Accepted(s: Submission): Event
    requires s.sequenceNumber.Finite? && s.sequenceNumber.value >= 0.0
  {
    Event(s.eventId, s.deviceId, s.sequenceNumber.value.Floor, s.capturedAt, s.capturedAtMs, s.fix)
  }

  function Advance(meta: Option<Meta>, event: Event): Option<Meta> {
    var m := if meta.Some? then meta.value else DEFAULT_QUEUE_META;
    var advanced := event.sequenceNumber + 1;
    if advanced > m.nextSequenceNumber then Some(m.(nextSequenceNumber := advanced)) else meta
  }

  /** Retention over what storage lists: the records left, and the result. */
  ghost function PruneStep(cfg: QueueConfig, records: Records, nowMs: real): (Records, PruneResult)
    requires WellKeyed(records)
  {
    var result := Prune(Take(ListOf(records), cfg.maxEvents + 1), nowMs, CapsFor(cfg));
    (records - DroppedIds(result.dropped), result)
  }

  function Inserted(records: Records, event: Event, nowMs: real): Records {
    records[event.eventId := QueuedEvent(event, nowMs, 0, None, None)]
  }

  ghost function EnqueueStep(cfg: QueueConfig, st: QueueState, s: Submission, nowMs: real): (QueueState, EnqueueResult)
    requires WellKeyed(st.records)
  {
    var refusal := Refusal(cfg, s);
    if refusal.Some? then (st, EnqueueResult(false, refusal, [], |st.records|))
    else
      var records := Inserted(st.records, Accepted(s), nowMs);
      var meta := Advance(st.meta, Accepted(s));
      if |records| > cfg.maxEvents then
        var (left, result) := PruneStep(cfg, records, nowMs);
        (QueueState(left, meta), EnqueueResult(true, None, IdsOf(result.dropped), |left|))
      else (QueueState(records, meta), EnqueueResult(true, None, [], |records|))
  }

  function ReserveStep(st: QueueState): (QueueState, nat) {
    var meta := MetaOf(st);
    (st.(meta := Some(meta.(nextSequenceNumber := meta.nextSequenceNumber + 1))), meta.nextSequenceNumber)
  }

  // ---- flush -------------------------------------------------------------

  datatype UploadContext = UploadContext(deviceId: string, idempotencyKey: string)

  /** The server's answer; a thrown error is a failure without a hint. */
  datatype UploadOutcome =
    | Uploaded(acceptedEventIds: Option<seq<string>>)
    | Failed(reason: Reason, retryAfterSeconds: Option<Num>)

  /** The upload is an adversary: it may answer anything to any batch. */
  type Upload = (seq<Event>, UploadContext) -> UploadOutcome

  datatype FlushResult = FlushResult(uploadedCount: nat, remainingCount: nat, lastError: Option<Reason>,
    attemptedAtMs: real)

  predicate Due(meta: Meta, nowMs: real) {
    meta.nextAttemptAtMs.None? || nowMs >= meta.nextAttemptAtMs.value
  }

  function BatchSize(cfg: QueueConfig, meta: Meta): nat {
    if meta.batchSizeHint.None? then cfg.maxBatchSize
    else
      var smaller := if meta.batchSizeHint.value < cfg.maxBatchSize then meta.batchSizeHint.value else cfg.maxBatchSize;
      if smaller < 1 then 1 else smaller
  }

  /** The batch a due flush submits. */
  ghost function Selected(cfg: QueueConfig, st: QueueState, nowMs: real): Option<BatchSelection>
    requires WellKeyed(st.records)
  {
    Select(cfg.hash, PruneStep(cfg, st.records, nowMs).1.keep, Finite(BatchSize(cfg, MetaOf(st)) as real))
  }

  function Bump(r: QueuedEvent, nowMs: real, reason: Option<Reason>): QueuedEvent {
    r.(attemptCount := r.attemptCount + 1, lastAttemptAtMs := Some(nowMs), lastFailureReason := reason)
  }

  function BumpAll(records: seq<QueuedEvent>, nowMs: real, reason: Option<Reason>): (bumped: seq<QueuedEvent>)
    ensures |bumped| == |records| && forall i :: 0 <= i < |bumped| ==> bumped[i] == Bump(records[i], nowMs, reason)
  {
    if records == [] then [] else [Bump(records[0], nowMs, reason)] + BumpAll(records[1..], nowMs, reason)
  }

  function Spent(records: seq<QueuedEvent>, maxAttempts: nat): seq<QueuedEvent> {
    if records == [] then []
    else (if records[0].attemptCount >= maxAttempts then [records[0]] else []) + Spent(records[1..], maxAttempts)
  }

  function Unspent(records: seq<QueuedEvent>, maxAttempts: nat): seq<QueuedEvent> {
    if records == [] then []
    else (if records[0].attemptCount < maxAttempts then [records[0]] else []) + Unspent(records[1..], maxAttempts)
  }

  function RetainStep(cfg: QueueConfig, records: Records, sent: seq<QueuedEvent>, nowMs: real,
    reason: Option<Reason>): Records {
    var bumped := BumpAll(sent, nowMs, reason);
    PutAll(records - IdSet(Spent(bumped, cfg.maxAttempts)), Unspent(bumped, cfg.maxAttempts))
  }

  function Among(ids: seq<string>, batch: set<string>): seq<string> {
    if ids == [] then [] else (if ids[0] in batch then [ids[0]] else []) + Among(ids[1..], batch)
  }

  /** The confirmed ids, with whatever repetitions the server made. */
  function Confirmed(batch: seq<QueuedEvent>, acceptedEventIds: Option<seq<string>>): seq<string> {
    match acceptedEventIds
    case None => Ids(batch)
    case Some(ids) => Among(ids, IdSet(batch))
  }

  function AfterSuccess(cfg: QueueConfig, records: Records, batch: seq<QueuedEvent>, accepted: Option<seq<string>>,
    nowMs: real): Records {
    var confirmed := SetOf(Confirmed(batch, accepted));
    RetainStep(cfg, records - confirmed, Excluding(batch, confirmed), nowMs, None)
  }

  function ServerHintMs(retryAfterSeconds: Option<Num>): real {
    Max(0.0, FiniteOr(retryAfterSeconds, 0.0)) * 1000.0
  }

  /** How long the gate closes after a failure worth retrying. */
  function FailureWait(cfg: QueueConfig, failures: nat, retryAfterSeconds: Option<Num>, random: Num): real {
    Max(
      Max(BackoffDelay(Finite(failures as real), Some(Whole(cfg.retry)), random) as real,
        ServerHintMs(retryAfterSeconds)),
      cfg.minUploadIntervalMs)
  }

  function Wait(cfg: QueueConfig, meta: Meta, outcome: UploadOutcome, random: Num): real {
    if outcome.Failed? && !RetryDisposition(outcome.reason).DropBatch? then
      FailureWait(cfg, meta.consecutiveFailures + 1, outcome.retryAfterSeconds, random)
    else cfg.minUploadIntervalMs
  }

  function ShrunkHint(sent: nat): nat {
    if sent / 2 < 1 then 1 else sent / 2
  }

  function SettledMeta(cfg: QueueConfig, meta: Meta, sent: nat, outcome: UploadOutcome, nowMs: real,
    random: Num): Meta {
    var next := Some(nowMs + Wait(cfg, meta, outcome, random));
    match outcome
    case Uploaded(_) =>
      meta.(consecutiveFailures := 0, lastAttemptAtMs := Some(nowMs), lastFailureReason := None,
        batchSizeHint := None, nextAttemptAtMs := next)
    case Failed(reason, _) =>
      var settled := meta.(lastAttemptAtMs := Some(nowMs), lastFailureReason := Some(reason), nextAttemptAtMs := next);
      match RetryDisposition(reason)
      case DropBatch => settled.(consecutiveFailures := 0, batchSizeHint := None)
      case ShrinkBatch => settled.(consecutiveFailures := meta.consecutiveFailures + 1,
        batchSizeHint := Some(ShrunkHint(sent)))
      case Retry => settled.(consecutiveFailures := meta.consecutiveFailures + 1)
  }

  function SettledRecords(cfg: QueueConfig, records: Records, batch: seq<QueuedEvent>, outcome: UploadOutcome,
    nowMs: real): Records {
    match outcome
    case Uploaded(accepted) => AfterSuccess(cfg, records, batch, accepted, nowMs)
    case Failed(reason, _) =>
      if RetryDisposition(reason).DropBatch? then records - IdSet(batch)
      else RetainStep(cfg, records, batch, nowMs, Some(reason))
  }

  function UploadedCount(batch: seq<QueuedEvent>, outcome: UploadOutcome): nat {
    if outcome.Uploaded? then |Confirmed(batch, outcome.acceptedEventIds)| else 0
  }

  function IdleMeta(meta: Meta): Meta {
    meta.(nextAttemptAtMs := None, consecutiveFailures := 0, lastFailureReason := None, batchSizeHint := None)
  }

  function AnswerTo(upload: Upload, b: BatchSelection): UploadOutcome {
    upload(b.events, UploadContext(b.deviceId, b.idempotencyKey))
  }

  /** What a due flush leaves, given what retention left and the batch. */
  function SettleStep(cfg: QueueConfig, left: Records, meta: Meta, selection: Option<BatchSelection>, upload: Upload,
    nowMs: real, random: Num): QueueState {
    match selection
    case None => QueueState(left, Some(IdleMeta(meta)))
    case Some(b) =>
      var outcome := AnswerTo(upload, b);
      QueueState(
        SettledRecords(cfg, left, b.records, outcome, nowMs),
        Some(SettledMeta(cfg, meta, |b.records|, outcome, nowMs, random)))
  }

  ghost function FlushStep(cfg: QueueConfig, st: QueueState, upload: Upload, nowMs: real, random: Num): QueueState
    requires WellKeyed(st.records)
  {
    if !Due(MetaOf(st), nowMs) then st
    else SettleStep(cfg, PruneStep(cfg, st.records, nowMs).0, MetaOf(st), Selected(cfg, st, nowMs), upload, nowMs,
      random)
  }

  ghost function FlushAnswer(cfg: QueueConfig, st: QueueState, upload: Upload, nowMs: real, random: Num): FlushResult
    requires WellKeyed(st.records)
  {
    var meta := MetaOf(st);
    if !Due(meta, nowMs) then FlushResult(0, |st.records|, meta.lastFailureReason, nowMs)
    else
      var remaining := |FlushStep(cfg, st, upload, nowMs, random).records|;
      match Selected(cfg, st, nowMs)
      case None => FlushResult(0, remaining, None, nowMs)
      case Some(b) =>
        var outcome := AnswerTo(upload, b);
        FlushResult(
          UploadedCount(b.records, outcome), remaining,
          if outcome.Failed? then Some(outcome.reason) else None, nowMs)
  }
}
