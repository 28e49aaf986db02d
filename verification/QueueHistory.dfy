/** What each call does and what the stored bookkeeping means: attempts, the hint, the streak and the last reason. */
module QueueHistory {
  import opened Basics
  import opened RetryPolicies
  import opened QueueTypes
  import opened QueueListing
  import opened QueueSelection
  import opened QueueRetention
  import opened QueueBackoff
  import opened QueueModel
  import opened QueueFacts
  import opened QueueRuns
  import opened QueueDrain
  import opened QueuePacing

  // ---- what an enqueue does ----------------------------------------------

  /** A natural sequence number. */
  ghost predicate HasNumber(s: Submission, n: nat) {
    s.sequenceNumber == Finite(n as real)
  }

  /** From the device this queue serves, if it serves one, with a natural sequence number and a readable time. */
  ghost predicate Admissible(cfg: QueueConfig, s: Submission) {
    && (cfg.deviceId.Some? ==> cfg.deviceId.value == s.deviceId)
    && (exists n: nat :: HasNumber(s, n))
    && s.capturedAtMs.Some?
  }

  lemma AdmissibleExactly(cfg: QueueConfig, s: Submission)
    ensures Refusal(cfg, s).None? <==> Admissible(cfg, s)
    ensures Refusal(cfg, s) == Some(DeviceMismatch) <==> cfg.deviceId.Some? && cfg.deviceId.value != s.deviceId
    ensures Refusal(cfg, s) == Some(InvalidSequence) ==> forall n: nat :: !HasNumber(s, n)
    ensures Refusal(cfg, s) == Some(InvalidTimestamp) ==> s.capturedAtMs.None? && exists n: nat :: HasNumber(s, n)
    ensures Refusal(cfg, s).None? ==> HasNumber(s, AcceptedEvent(cfg, s).sequenceNumber)
  {
    if IsSequence(s.sequenceNumber) { assert HasNumber(s, s.sequenceNumber.value.Floor); }
  }

  /**
   * The event, numbered `n`, is in: pending as submitted, never sent, in place of any record of its
   * id; `n` counts as issued; and retention dropped what it reports, and only if there was one too many.
   */
  ghost predicate Entered(cfg: QueueConfig, st: QueueState, s: Submission, nowMs: real, n: nat, after: QueueState,
    droppedEventIds: seq<string>)
  {
    && (forall k :: k in after.records ==>
          if k != s.eventId then k in st.records && after.records[k] == st.records[k]
          else
            after.records[k]
              == QueuedEvent(Event(k, s.deviceId, n, s.capturedAt, s.capturedAtMs, s.fix), nowMs, 0, None, None))
    && (forall id :: id in SetOf(droppedEventIds) <==> (id in st.records || id == s.eventId) && id !in after.records)
    && (s.eventId in st.records || |st.records| < cfg.maxEvents ==> droppedEventIds == [])
    && MetaOf(after)
       == MetaOf(st).(nextSequenceNumber :=
            if n < MetaOf(st).nextSequenceNumber then MetaOf(st).nextSequenceNumber else n + 1)
  }

  /** An inadmissible event is refused and changes nothing; an admissible one is in. */
  lemma EnqueueExactly(cfg: QueueConfig, st: QueueState, s: Submission, nowMs: real)
    requires WithinLimits(cfg) && Inv(cfg, st)
    ensures var (after, result) := EnqueueStep(cfg, st, s, nowMs);
            && (result.queued <==> Admissible(cfg, s))
            && (result.rejectedReason.Some? <==> !Admissible(cfg, s))
            && result.pendingCount == |after.records|
            && if !Admissible(cfg, s) then after == st && result.droppedEventIds == []
               else exists n: nat :: HasNumber(s, n) && Entered(cfg, st, s, nowMs, n, after, result.droppedEventIds)
  {
    hide WithinLimits, PruneStep, Refusal, Sound, Admissible, HasNumber, Entered;
    AdmissibleExactly(cfg, s);
    if Refusal(cfg, s).None? { EnqueueEnters(cfg, st, s, nowMs); }
  }

  lemma EnqueueEnters(cfg: QueueConfig, st: QueueState, s: Submission, nowMs: real)
    requires WithinLimits(cfg) && Inv(cfg, st) && Refusal(cfg, s).None?
    ensures var (after, result) := EnqueueStep(cfg, st, s, nowMs);
            Entered(cfg, st, s, nowMs, AcceptedEvent(cfg, s).sequenceNumber, after, result.droppedEventIds)
  {
    hide WithinLimits, PruneStep, EnqueueStep, Refusal, Sound;
    EnqueueFacts(cfg, st, s, nowMs);
    EnqueueDrops(cfg, st, s, nowMs);
  }

  lemma EnqueueDrops(cfg: QueueConfig, st: QueueState, s: Submission, nowMs: real)
    requires WithinLimits(cfg) && Inv(cfg, st) && Refusal(cfg, s).None?
    ensures var (after, result) := EnqueueStep(cfg, st, s, nowMs);
            && (forall id :: id in SetOf(result.droppedEventIds) <==>
                  (id in st.records || id == s.eventId) && id !in after.records)
            && (s.eventId in st.records || |st.records| < cfg.maxEvents ==> result.droppedEventIds == [])
  {
    hide WithinLimits, PruneStep, Refusal, Sound, DroppedIds, Fault, PartOf, IsListing;
    var put := Inserted(st.records, AcceptedEvent(cfg, s), nowMs);
    InsertedSize(st.records, AcceptedEvent(cfg, s), nowMs);
    assert put.Keys == st.records.Keys + {s.eventId};
    if s.eventId in st.records { assert put.Keys == st.records.Keys; }
    if |put| > cfg.maxEvents {
      PruneFacts(cfg, put, nowMs);
      RemovedIds(PruneStep(cfg, put, nowMs).1.dropped);
      DroppedWithin(cfg, put, nowMs);
    }
  }

  /** Retention names only records it was given. */
  lemma DroppedWithin(cfg: QueueConfig, records: Records, nowMs: real)
    requires WellKeyed(records) && |records| <= cfg.maxEvents + 1
    ensures DroppedIds(PruneStep(cfg, records, nowMs).1.dropped) <= records.Keys
  {
    hide Prune, Precedes, Fault, AgeOrigin;
    ListOfLists(records);
    PruneStepIs(cfg, records, nowMs);
    forall id | id in DroppedIds(PruneStep(cfg, records, nowMs).1.dropped) ensures id in records {
      var d :| d in PruneStep(cfg, records, nowMs).1.dropped && d.eventId == id;
      DropsHaveCause(ListOf(records), nowMs, CapsFor(cfg), d);
    }
  }

  // ---- attempts count submissions ----------------------------------------

  /** A call that does not take the id in leaves its record as it was, but for the attempts it submits. */
  lemma StepCounts(cfg: QueueConfig, st: QueueState, op: Op, id: string)
    requires WithinLimits(cfg) && Inv(cfg, st) && !TakesIn(cfg, op, id)
    requires WellKeyed(Step(cfg, st, op).records) && id in Step(cfg, st, op).records
    ensures var after := Step(cfg, st, op).records;
            && id in st.records && SameEvent(after[id], st.records[id])
            && after[id].attemptCount == st.records[id].attemptCount + (if id in Submitted(cfg, st, op) then 1 else 0)
  {
    hide WithinLimits, FlushStep, Selected, PruneStep, Due, Refusal;
    match op
    case EnqueueOp(s, nowMs) =>
      if Refusal(cfg, s).None? { EnqueueFacts(cfg, st, s, nowMs); }
    case FlushOp(upload, nowMs, random) => FlushBumps(cfg, st, upload, nowMs, random, id);
    case ReserveOp =>
  }

  lemma {:induction false} RunCounts(cfg: QueueConfig, st: QueueState, ops: seq<Op>, id: string)
    requires WithinLimits(cfg) && Inv(cfg, st) && EnqueuedAs(cfg, ops, id) == 0
    requires WellKeyed(st.records) && id in Run(cfg, st, ops).records
    ensures var after := Run(cfg, st, ops).records;
            && id in st.records && SameEvent(after[id], st.records[id])
            && after[id].attemptCount == st.records[id].attemptCount + Submissions(cfg, st, ops, id)
    decreases |ops|
  {
    hide WithinLimits, Step, Submitted, TakesIn, Inv;
    if ops != [] {
      StepInv(cfg, st, ops[0]);
      StepKeyed(cfg, st, ops[0]);
      RunCounts(cfg, Step(cfg, st, ops[0]), ops[1..], id);
      StepCounts(cfg, st, ops[0], id);
    }
  }

  /** A new record is the event as submitted, enqueued now, never sent. */
  lemma EnqueuedFresh(cfg: QueueConfig, st: QueueState, op: Op)
    requires WithinLimits(cfg) && Inv(cfg, st) && Enqueues(cfg, op)
    requires WellKeyed(Step(cfg, st, op).records) && op.submission.eventId in Step(cfg, st, op).records
    ensures Step(cfg, st, op).records[op.submission.eventId]
      == QueuedEvent(AcceptedEvent(cfg, op.submission), op.nowMs, 0, None, None)
  {
    hide WithinLimits, PruneStep, Refusal;
    EnqueueFacts(cfg, st, op.submission, op.nowMs);
  }

  /**
   * On any run, a pending record is its last enqueue's event, unaltered, and its attempt count is
   * exactly the number of times it has been submitted since.
   */
  lemma AttemptsCountSubmissions(cfg: QueueConfig, before: seq<Op>, op: Op, after: seq<Op>)
    requires WithinLimits(cfg) && Enqueues(cfg, op) && EnqueuedAs(cfg, after, op.submission.eventId) == 0
    ensures Inv(cfg, EMPTY_QUEUE) && Inv(cfg, Run(cfg, EMPTY_QUEUE, before))
    ensures Inv(cfg, Step(cfg, Run(cfg, EMPTY_QUEUE, before), op))
    ensures var mid := Step(cfg, Run(cfg, EMPTY_QUEUE, before), op);
            var last := Run(cfg, EMPTY_QUEUE, before + [op] + after).records;
            var id := op.submission.eventId;
            id in last ==>
              && last[id].event == AcceptedEvent(cfg, op.submission) && last[id].queuedAtMs == op.nowMs
              && last[id].attemptCount == Submissions(cfg, mid, after, id)
  {
    hide WithinLimits, Step, Run, Refusal, AcceptedEvent, Submissions, EnqueuedAs;
    var st := Run(cfg, EMPTY_QUEUE, before);
    RunInv(cfg, EMPTY_QUEUE, before);
    StepInv(cfg, st, op);
    RunSplits(cfg, EMPTY_QUEUE, before, [op] + after);
    assert before + ([op] + after) == before + [op] + after;
    RunOne(cfg, st, op, after);
    var id := op.submission.eventId;
    if id in Run(cfg, EMPTY_QUEUE, before + [op] + after).records {
      RunCounts(cfg, Step(cfg, st, op), after, id);
      EnqueuedFresh(cfg, st, op);
    }
  }

  // ---- what an answer does -----------------------------------------------

  /** The server's answer to a flush that uploads. */
  ghost function Answer(cfg: QueueConfig, st: QueueState, op: Op): UploadOutcome
    requires WellKeyed(st.records) && Sends(cfg, st, op)
  {
    AnswerTo(op.upload, Selected(cfg, st, op.nowMs).value)
  }

  ghost function SentCount(cfg: QueueConfig, st: QueueState, op: Op): nat
    requires WellKeyed(st.records) && Sends(cfg, st, op)
  {
    |Selected(cfg, st, op.nowMs).value.records|
  }

  /** The state after an upload's meta, in terms of its answer. */
  lemma UploadSettles(cfg: QueueConfig, st: QueueState, op: Op)
    requires WellKeyed(st.records) && Sends(cfg, st, op)
    ensures Step(cfg, st, op).meta
            == Some(SettledMeta(cfg, MetaOf(st), SentCount(cfg, st, op), Answer(cfg, st, op), op.nowMs, op.random))
  {
    hide PruneStep, Selected, SettledRecords, SettledMeta, Due;
  }

  lemma SelectedWithin(cfg: QueueConfig, st: QueueState, nowMs: real)
    requires Inv(cfg, st) && Selected(cfg, st, nowMs).Some?
    ensures |Selected(cfg, st, nowMs).value.records| <= BatchLimit(Finite(BatchSize(cfg, MetaOf(st)) as real))
  {
    hide Prune, Precedes, Fault, DroppedIds, KeyOver, BatchLimit, OldestIndex, OfDevice;
    PruneFacts(cfg, st.records, nowMs);
    BatchMeaning(cfg.hash, PruneStep(cfg, st.records, nowMs).1.keep, Finite(BatchSize(cfg, MetaOf(st)) as real));
  }

  lemma LimitOf(n: nat)
    requires n >= 1
    ensures BatchLimit(Finite(n as real)) <= n
  {
  }

  /** Halved, but never below one. */
  function Half(n: nat): nat {
    if n < 2 then 1 else n / 2
  }

  /** Closed for the minimum interval alone. */
  predicate WaitsMinimum(cfg: QueueConfig, nowMs: real, gate: Option<real>) {
    gate == Some(nowMs + cfg.minUploadIntervalMs)
  }

  /** The server's hint in milliseconds, if it is usable and not negative. */
  function HintedMs(hint: Option<Num>): Option<real> {
    if hint.Some? && hint.value.Finite? && hint.value.value >= 0.0 then Some(hint.value.value * 1000.0) else None
  }

  /** Closed for the longest of the minimum interval, the backoff and the server's hint, and no longer. */
  predicate WaitsLongest(cfg: QueueConfig, nowMs: real, gate: Option<real>, backoffMs: real, hintMs: Option<real>) {
    && gate.Some?
    && gate.value >= nowMs + cfg.minUploadIntervalMs
    && gate.value >= nowMs + backoffMs
    && (hintMs.Some? ==> gate.value >= nowMs + hintMs.value)
    && (|| gate.value == nowMs + cfg.minUploadIntervalMs
        || gate.value == nowMs + backoffMs
        || (hintMs.Some? && gate.value == nowMs + hintMs.value))
  }

  /** The bookkeeping after a failure: the hint is halved exactly for a batch that was too large. */
  predicate FailureNoted(cfg: QueueConfig, before: Meta, after: Meta, sent: nat, failure: UploadOutcome, nowMs: real,
    random: Num)
    requires failure.Failed?
  {
    && after.lastFailureReason == Some(failure.reason) && after.lastAttemptAtMs == Some(nowMs)
    && (failure.reason == PayloadTooLarge ==> after.batchSizeHint == Some(Half(sent)))
    && (failure.reason != PayloadTooLarge && !Hopeless(failure.reason) ==> after.batchSizeHint == before.batchSizeHint)
    && if Hopeless(failure.reason) then
         && after.batchSizeHint.None? && after.consecutiveFailures == 0
         && WaitsMinimum(cfg, nowMs, after.nextAttemptAtMs)
       else
         && after.consecutiveFailures == before.consecutiveFailures + 1
         && WaitsLongest(cfg, nowMs, after.nextAttemptAtMs,
              BackoffDelay(Finite(after.consecutiveFailures as real), Some(Whole(cfg.retry)), random) as real,
              HintedMs(failure.retryAfterSeconds))
  }

  /**
   * What a failure does, for each reason.  A validation failure, a prohibition or an earlier
   * acceptance removes the whole batch; after any other reason exactly the records with an attempt
   * left stay, with one more attempt and the reason.
   */
  lemma FailureFates(cfg: QueueConfig, st: QueueState, op: Op)
    requires WithinLimits(cfg) && Inv(cfg, st) && Sends(cfg, st, op) && Answer(cfg, st, op).Failed?
    ensures var after, batch := Step(cfg, st, op), Selected(cfg, st, op.nowMs).value.records;
            var left, reason := PruneStep(cfg, st.records, op.nowMs).0, Answer(cfg, st, op).reason;
            && (forall k :: k in left && k !in IdSet(batch) ==> k in after.records && after.records[k] == left[k])
            && (forall r :: r in batch ==>
                  if reason == ValidationFailed || reason == Forbidden || reason == AlreadyAccepted
                     || r.attemptCount + 1 >= cfg.maxAttempts
                  then IdOf(r) !in after.records
                  else
                    && IdOf(r) in after.records
                    && after.records[IdOf(r)]
                       == QueuedEvent(r.event, r.queuedAtMs, r.attemptCount + 1, Some(op.nowMs), Some(reason)))
    ensures FailureNoted(cfg, MetaOf(st), MetaOf(Step(cfg, st, op)), SentCount(cfg, st, op), Answer(cfg, st, op),
              op.nowMs, op.random)
    ensures FlushAnswer(cfg, st, op.upload, op.nowMs, op.random)
            == FlushResult(0, |Step(cfg, st, op).records|, Some(Answer(cfg, st, op).reason), op.nowMs)
  {
    hide WithinLimits, PruneStep, Selected, Due, FlushStep, Sound, AnswerTo, SettledMeta, FailureNoted;
    FlushFacts(cfg, st, op.upload, op.nowMs, op.random);
    UploadSettles(cfg, st, op);
    FailedMeta(cfg, MetaOf(st), SentCount(cfg, st, op), Answer(cfg, st, op), op.nowMs, op.random);
  }

  lemma FailedMeta(cfg: QueueConfig, before: Meta, sent: nat, outcome: UploadOutcome, nowMs: real, random: Num)
    requires WithinLimits(cfg) && outcome.Failed?
    ensures FailureNoted(cfg, before, SettledMeta(cfg, before, sent, outcome, nowMs, random), sent, outcome, nowMs,
              random)
  {
    hide BackoffDelay, Whole, WellFormed;
    BackoffBounded(Finite((before.consecutiveFailures + 1) as real), Some(Whole(cfg.retry)), random);
  }

  /**
   * What a success does: exactly the records that the server confirmed, all of them if it names
   * none, and those without an attempt left go; the streak, the reason and the hint are forgotten.
   */
  lemma SuccessFates(cfg: QueueConfig, st: QueueState, op: Op)
    requires WithinLimits(cfg) && Inv(cfg, st) && Sends(cfg, st, op) && Answer(cfg, st, op).Uploaded?
    ensures var after, batch := Step(cfg, st, op), Selected(cfg, st, op.nowMs).value.records;
            var left, named := PruneStep(cfg, st.records, op.nowMs).0, Answer(cfg, st, op).acceptedEventIds;
            && (forall k :: k in left && k !in IdSet(batch) ==> k in after.records && after.records[k] == left[k])
            && (forall r :: r in batch ==>
                  if named.None? || IdOf(r) in named.value || r.attemptCount + 1 >= cfg.maxAttempts then
                    IdOf(r) !in after.records
                  else
                    && IdOf(r) in after.records
                    && after.records[IdOf(r)]
                       == QueuedEvent(r.event, r.queuedAtMs, r.attemptCount + 1, Some(op.nowMs), None))
    ensures var before, after := MetaOf(st), MetaOf(Step(cfg, st, op));
            && after == Meta(before.nextSequenceNumber, after.nextAttemptAtMs, 0, Some(op.nowMs), None, None)
            && WaitsMinimum(cfg, op.nowMs, after.nextAttemptAtMs)
    ensures FlushAnswer(cfg, st, op.upload, op.nowMs, op.random)
            == FlushResult(
                 UploadedCount(Selected(cfg, st, op.nowMs).value.records, Answer(cfg, st, op)),
                 |Step(cfg, st, op).records|, None, op.nowMs)
  {
    hide WithinLimits, PruneStep, Selected, Due, FlushStep, Sound, AnswerTo, SentCount, Confirmed;
    FlushFacts(cfg, st, op.upload, op.nowMs, op.random);
    UploadSettles(cfg, st, op);
    ConfirmedWithinBatch(Selected(cfg, st, op.nowMs).value.records, Answer(cfg, st, op).acceptedEventIds);
  }

  /** A due flush that finds nothing left to submit opens the gate and forgets the streak, the reason and the hint. */
  lemma IdleForgets(cfg: QueueConfig, st: QueueState, op: Op)
    requires WithinLimits(cfg) && Inv(cfg, st) && op.FlushOp? && Due(MetaOf(st), op.nowMs) && !Sends(cfg, st, op)
    ensures var before, after := MetaOf(st), MetaOf(Step(cfg, st, op));
            && Step(cfg, st, op).records == map[]
            && after == Meta(before.nextSequenceNumber, None, 0, before.lastAttemptAtMs, None, None)
            && FlushAnswer(cfg, st, op.upload, op.nowMs, op.random) == FlushResult(0, 0, None, op.nowMs)
  {
    hide WithinLimits, PruneStep, Selected, Due, FlushStep, Sound;
    FlushFacts(cfg, st, op.upload, op.nowMs, op.random);
    IdleMetaIs(cfg, st, op);
  }

  lemma IdleMetaIs(cfg: QueueConfig, st: QueueState, op: Op)
    requires WellKeyed(st.records) && op.FlushOp? && Due(MetaOf(st), op.nowMs) && !Sends(cfg, st, op)
    ensures Step(cfg, st, op).meta == Some(IdleMeta(MetaOf(st)))
  {
    hide PruneStep, Selected, Due;
  }

  /** The gate: a flush uploads exactly if its time has come and retention left something. */
  lemma UploadsExactlyWhenOpen(cfg: QueueConfig, st: QueueState, op: Op)
    requires Inv(cfg, st) && op.FlushOp?
    ensures var gate := MetaOf(st).nextAttemptAtMs;
            var open := gate.None? || gate.value <= op.nowMs;
            && (Due(MetaOf(st), op.nowMs) <==> open)
            && (Sends(cfg, st, op) <==> open && PruneStep(cfg, st.records, op.nowMs).0 != map[])
            && (!open ==> Step(cfg, st, op) == st)
  {
    hide PruneStep, Selected, SettleStep, Sound;
    SelectedFacts(cfg, st, op.nowMs);
  }

  // ---- what the calls between two uploads leave alone --------------------

  /** Enqueues, reservations, and flushes before the gate opens. */
  ghost predicate Meanwhile(cfg: QueueConfig, st: QueueState, ops: seq<Op>)
    requires WellKeyed(st.records)
    decreases |ops|
  {
    ops != [] ==>
      && (ops[0].FlushOp? ==> !Due(MetaOf(st), ops[0].nowMs))
      && (StepKeyed(cfg, st, ops[0]); Meanwhile(cfg, Step(cfg, st, ops[0]), ops[1..]))
  }

  predicate SameGate(a: Meta, b: Meta) {
    && a.nextAttemptAtMs == b.nextAttemptAtMs && a.consecutiveFailures == b.consecutiveFailures
    && a.lastFailureReason == b.lastFailureReason && a.batchSizeHint == b.batchSizeHint
  }

  lemma StepKeepsGateFields(cfg: QueueConfig, st: QueueState, op: Op)
    requires WellKeyed(st.records) && (op.FlushOp? ==> !Due(MetaOf(st), op.nowMs))
    ensures SameGate(MetaOf(Step(cfg, st, op)), MetaOf(st))
  {
    hide PruneStep, Selected, SettleStep, Refusal, Due;
  }

  lemma {:induction false} MeanwhileKeepsGate(cfg: QueueConfig, st: QueueState, ops: seq<Op>)
    requires WellKeyed(st.records) && Meanwhile(cfg, st, ops)
    ensures SameGate(MetaOf(Run(cfg, st, ops)), MetaOf(st))
    decreases |ops|
  {
    hide Step, Due;
    if ops != [] {
      StepKeyed(cfg, st, ops[0]);
      StepKeepsGateFields(cfg, st, ops[0]);
      MeanwhileKeepsGate(cfg, Step(cfg, st, ops[0]), ops[1..]);
    }
  }

  /** The state after an upload and some calls short of the next one. */
  ghost function Afterwards(cfg: QueueConfig, st: QueueState, op: Op, between: seq<Op>): QueueState
    requires WellKeyed(st.records)
  {
    StepKeyed(cfg, st, op);
    Run(cfg, Step(cfg, st, op), between)
  }

  /** An upload, and then nothing that opens the gate. */
  ghost predicate UploadThen(cfg: QueueConfig, st: QueueState, op: Op, between: seq<Op>)
    requires WellKeyed(st.records)
  {
    && op.FlushOp? && Sends(cfg, st, op)
    && (StepKeyed(cfg, st, op); Meanwhile(cfg, Step(cfg, st, op), between))
  }

  /** The gate is as the answer to the upload left it. */
  lemma GateAfterwards(cfg: QueueConfig, st: QueueState, op: Op, between: seq<Op>)
    requires WellKeyed(st.records) && UploadThen(cfg, st, op, between)
    ensures Sends(cfg, st, op)
    ensures SameGate(
              MetaOf(Afterwards(cfg, st, op, between)),
              SettledMeta(cfg, MetaOf(st), SentCount(cfg, st, op), Answer(cfg, st, op), op.nowMs, op.random))
  {
    hide Step, Sends, Answer, SentCount, SettledMeta, Meanwhile, Run;
    StepKeyed(cfg, st, op);
    UploadSettles(cfg, st, op);
    MeanwhileKeepsGate(cfg, Step(cfg, st, op), between);
  }

  lemma InvAfterwards(cfg: QueueConfig, st: QueueState, op: Op, between: seq<Op>)
    requires WithinLimits(cfg) && Inv(cfg, st)
    ensures WellKeyed(st.records) && Inv(cfg, Afterwards(cfg, st, op, between))
  {
    hide WithinLimits, Step, Run, Sound;
    StepInv(cfg, st, op);
    RunInv(cfg, Step(cfg, st, op), between);
  }

  /**
   * After a batch was too large, the limit is half of it and the next batch at most that; after a
   * success or a refusal the full size is back, and after any other failure the limit stays as it
   * was: whatever is enqueued, reserved or flushed too early in between.
   */
  lemma BatchSizeAdapts(cfg: QueueConfig, st: QueueState, op: Op, between: seq<Op>, laterMs: real)
    requires WithinLimits(cfg) && Inv(cfg, st) && UploadThen(cfg, st, op, between)
    ensures Sends(cfg, st, op)
    ensures var next, answer := Afterwards(cfg, st, op, between), Answer(cfg, st, op);
            && Inv(cfg, next)
            && (answer.Failed? && answer.reason == PayloadTooLarge ==>
                  && BatchSize(cfg, MetaOf(next)) == Half(SentCount(cfg, st, op))
                  && (Selected(cfg, next, laterMs).Some? ==>
                        |Selected(cfg, next, laterMs).value.records| <= Half(SentCount(cfg, st, op))))
            && (answer.Uploaded? || Hopeless(answer.reason) ==>
                  BatchSize(cfg, MetaOf(next)) == cfg.maxBatchSize)
            && (answer.Failed? && answer.reason != PayloadTooLarge && !Hopeless(answer.reason) ==>
                  BatchSize(cfg, MetaOf(next)) == BatchSize(cfg, MetaOf(st)))
  {
    hide Afterwards, Meanwhile, Due, Selected, Answer, SentCount, BatchLimit, BatchSize, SettledMeta, SameGate,
      Hopeless, Half, Sound, WithinLimits;
    InvAfterwards(cfg, st, op, between);
    GateAfterwards(cfg, st, op, between);
    SentWithinLimit(cfg, st, op);
    var next := Afterwards(cfg, st, op, between);
    SettledLimit(cfg, MetaOf(st), MetaOf(next), SentCount(cfg, st, op), Answer(cfg, st, op), op.nowMs, op.random);
    LimitPositive(cfg, MetaOf(next));
    if Selected(cfg, next, laterMs).Some? {
      SelectedWithin(cfg, next, laterMs);
      LimitOf(BatchSize(cfg, MetaOf(next)));
    }
  }

  lemma LimitPositive(cfg: QueueConfig, meta: Meta)
    requires WithinLimits(cfg)
    ensures BatchSize(cfg, meta) >= 1
  {
  }

  /** The limit that an answer leaves. */
  lemma SettledLimit(cfg: QueueConfig, before: Meta, after: Meta, sent: nat, outcome: UploadOutcome, nowMs: real,
    random: Num)
    requires WithinLimits(cfg) && 1 <= sent <= cfg.maxBatchSize
    requires SameGate(after, SettledMeta(cfg, before, sent, outcome, nowMs, random))
    ensures outcome.Uploaded? || Hopeless(outcome.reason) ==> BatchSize(cfg, after) == cfg.maxBatchSize
    ensures outcome.Failed? && outcome.reason == PayloadTooLarge ==> BatchSize(cfg, after) == Half(sent)
    ensures outcome.Failed? && outcome.reason != PayloadTooLarge && !Hopeless(outcome.reason) ==>
              BatchSize(cfg, after) == BatchSize(cfg, before)
  {
    hide Wait, WellFormed;
  }

  lemma SentWithinLimit(cfg: QueueConfig, st: QueueState, op: Op)
    requires WithinLimits(cfg) && Inv(cfg, st) && Sends(cfg, st, op)
    ensures 1 <= SentCount(cfg, st, op) <= cfg.maxBatchSize
  {
    hide Selected, BatchLimit, Sound;
    SelectedWithin(cfg, st, op.nowMs);
    SelectedFacts(cfg, st, op.nowMs);
    LimitOf(BatchSize(cfg, MetaOf(st)));
  }

  // ---- the failure streak ------------------------------------------------

  /** A failure that the gate answers with a backoff, without a hint from the server. */
  predicate BacksOff(outcome: UploadOutcome) {
    outcome.Failed? && !Hopeless(outcome.reason) && outcome.retryAfterSeconds.None?
  }

  lemma WaitGrows(cfg: QueueConfig, first: Meta, second: Meta, a: UploadOutcome, b: UploadOutcome, random: Num)
    requires BacksOff(a) && BacksOff(b) && first.consecutiveFailures <= second.consecutiveFailures
    ensures Wait(cfg, first, a, random) <= Wait(cfg, second, b, random)
  {
    hide BackoffDelay, Whole, RetryDisposition, Hopeless;
    DispositionsExactly(a.reason);
    DispositionsExactly(b.reason);
    BackoffGrows(
      Finite((first.consecutiveFailures + 1) as real), Finite((second.consecutiveFailures + 1) as real),
        Some(Whole(cfg.retry)), random);
  }

  /** Within a streak of failures, for one and the same draw, the gate never closes for a shorter time than before. */
  lemma StreakWaitsGrow(cfg: QueueConfig, st: QueueState, op: Op, between: seq<Op>, laterOp: Op)
    requires WithinLimits(cfg) && Inv(cfg, st) && UploadThen(cfg, st, op, between)
    requires Sends(cfg, st, op) && BacksOff(Answer(cfg, st, op))
    requires WellKeyed(Afterwards(cfg, st, op, between).records)
    requires laterOp.FlushOp? && Sends(cfg, Afterwards(cfg, st, op, between), laterOp)
    requires BacksOff(Answer(cfg, Afterwards(cfg, st, op, between), laterOp)) && op.random == laterOp.random
    ensures var later := Afterwards(cfg, st, op, between);
            && MetaOf(later).consecutiveFailures == MetaOf(st).consecutiveFailures + 1
            && Wait(cfg, MetaOf(st), Answer(cfg, st, op), op.random)
               <= Wait(cfg, MetaOf(later), Answer(cfg, later, laterOp), laterOp.random)
  {
    hide Afterwards, Sends, Answer, SentCount, Wait, RetryDisposition, Sound, SettledMeta, WithinLimits, BacksOff,
      Meanwhile;
    GateAfterwards(cfg, st, op, between);
    var later := Afterwards(cfg, st, op, between);
    StreakCounts(cfg, MetaOf(st), SentCount(cfg, st, op), Answer(cfg, st, op), op.nowMs, op.random);
    WaitGrows(cfg, MetaOf(st), MetaOf(later), Answer(cfg, st, op), Answer(cfg, later, laterOp), op.random);
  }

  lemma StreakCounts(cfg: QueueConfig, meta: Meta, sent: nat, outcome: UploadOutcome, nowMs: real, random: Num)
    requires BacksOff(outcome)
    ensures SettledMeta(cfg, meta, sent, outcome, nowMs, random).consecutiveFailures == meta.consecutiveFailures + 1
  {
    hide Wait;
  }

  // ---- the last reason ---------------------------------------------------

  /**
   * A flush before the gate opens uploads nothing, changes nothing, and repeats the reason of the
   * upload that closed it, whatever was enqueued or reserved since.
   */
  lemma EarlyFlushRepeatsReason(
    cfg: QueueConfig, st: QueueState, op: Op, between: seq<Op>, upload: Upload, earlyMs: real, random: Num)
    requires WellKeyed(st.records) && UploadThen(cfg, st, op, between)
    requires Sends(cfg, st, op) && earlyMs < op.nowMs + Wait(cfg, MetaOf(st), Answer(cfg, st, op), op.random)
    requires WellKeyed(Afterwards(cfg, st, op, between).records)
    ensures var next := Afterwards(cfg, st, op, between);
            && FlushStep(cfg, next, upload, earlyMs, random) == next
            && FlushAnswer(cfg, next, upload, earlyMs, random)
               == FlushResult(0, |next.records|, FailureOf(Answer(cfg, st, op)), earlyMs)
  {
    hide Afterwards, Sends, Selected, Answer, SentCount, Wait, PruneStep, RetryDisposition, Meanwhile;
    GateAfterwards(cfg, st, op, between);
  }
}
