/** Runs of the outbound queue: any sequence of calls, each to completion, with any server answers. */
module QueueRuns {
  import opened Basics
  import opened Limits
  import opened QueueTypes
  import opened QueueListing
  import opened QueueSelection
  import opened QueueRetention
  import opened QueueModel
  import opened QueueFacts

  datatype Op =
    | EnqueueOp(submission: Submission, nowMs: real)
    | FlushOp(upload: Upload, nowMs: real, random: Num)
    | ReserveOp

  ghost function Step(cfg: QueueConfig, st: QueueState, op: Op): QueueState
    requires WellKeyed(st.records)
  {
    match op
    case EnqueueOp(s, nowMs) => EnqueueStep(cfg, st, s, nowMs).0
    case FlushOp(upload, nowMs, random) => FlushStep(cfg, st, upload, nowMs, random)
    case ReserveOp => ReserveStep(st).0
  }

  lemma StepKeyed(cfg: QueueConfig, st: QueueState, op: Op)
    requires WellKeyed(st.records)
    ensures WellKeyed(Step(cfg, st, op).records)
  {
    hide PruneStep, FlushStep, Refusal;
    match op
    case EnqueueOp(s, nowMs) =>
      if Refusal(cfg, s).None? {
        var event := AcceptedEvent(cfg, s);
        PruneKeyed(cfg, Inserted(st.records, event, nowMs), nowMs);
      }
    case FlushOp(upload, nowMs, random) => FlushKeyed(cfg, st, upload, nowMs, random);
    case ReserveOp =>
  }

  ghost function Run(cfg: QueueConfig, st: QueueState, ops: seq<Op>): QueueState
    requires WellKeyed(st.records)
    decreases |ops|
  {
    if ops == [] then st
    else
      StepKeyed(cfg, st, ops[0]);
      Run(cfg, Step(cfg, st, ops[0]), ops[1..])
  }

  /** The event an enqueue accepts. */
  function AcceptedEvent(cfg: QueueConfig, s: Submission): Event
    requires Refusal(cfg, s).None?
  {
    Accepted(s)
  }

  predicate Enqueues(cfg: QueueConfig, op: Op) {
    op.EnqueueOp? && Refusal(cfg, op.submission).None?
  }

  /** How many of the calls are flushes that the gate lets through. */
  ghost function DueFlushes(cfg: QueueConfig, st: QueueState, ops: seq<Op>): nat
    requires WellKeyed(st.records)
    decreases |ops|
  {
    if ops == [] then 0
    else
      StepKeyed(cfg, st, ops[0]);
      (if ops[0].FlushOp? && Due(MetaOf(st), ops[0].nowMs) then 1 else 0)
        + DueFlushes(cfg, Step(cfg, st, ops[0]), ops[1..])
  }

  // ---- the invariant -----------------------------------------------------

  /** The record's attempts are not used up, and its sequence number has been issued. */
  predicate Sound(cfg: QueueConfig, r: QueuedEvent, nextSequenceNumber: nat) {
    r.attemptCount < cfg.maxAttempts && r.event.sequenceNumber < nextSequenceNumber
  }

  ghost predicate Inv(cfg: QueueConfig, st: QueueState) {
    && WellKeyed(st.records)
    && |st.records| <= cfg.maxEvents
    && forall k :: k in st.records ==> Sound(cfg, st.records[k], MetaOf(st).nextSequenceNumber)
  }

  lemma InsertedSize(records: Records, event: Event, nowMs: real)
    ensures |Inserted(records, event, nowMs)| <= |records| + 1
    ensures event.eventId !in records ==> |Inserted(records, event, nowMs)| == |records| + 1
  {
    var after := Inserted(records, event, nowMs);
    assert after.Keys == records.Keys + {event.eventId};
  }

  /** What an accepted enqueue leaves: retention runs only when the new record is one too many. */
  lemma EnqueueFacts(cfg: QueueConfig, st: QueueState, s: Submission, nowMs: real)
    requires WellKeyed(st.records) && |st.records| <= cfg.maxEvents && Refusal(cfg, s).None?
    ensures var event := AcceptedEvent(cfg, s);
            var put, after := Inserted(st.records, event, nowMs), EnqueueStep(cfg, st, s, nowMs).0;
            && after.meta == Advance(st.meta, event)
            && WellKeyed(put) && WellKeyed(after.records) && PartOf(after.records, put)
            && |put| <= cfg.maxEvents + 1 && |after.records| <= cfg.maxEvents
            && after.records == (if |put| > cfg.maxEvents then PruneStep(cfg, put, nowMs).0 else put)
  {
    hide PruneStep, Refusal, Fault, CapsFor, DroppedIds, Prune;
    var put := Inserted(st.records, AcceptedEvent(cfg, s), nowMs);
    InsertedSize(st.records, AcceptedEvent(cfg, s), nowMs);
    PruneFacts(cfg, put, nowMs);
  }

  /** A due flush: what retention leaves, then what the answer does to the batch. */
  lemma FlushFacts(cfg: QueueConfig, st: QueueState, upload: Upload, nowMs: real, random: Num)
    requires WellKeyed(st.records) && |st.records| <= cfg.maxEvents && Due(MetaOf(st), nowMs)
    ensures var left, selection := PruneStep(cfg, st.records, nowMs).0, Selected(cfg, st, nowMs);
            var after := FlushStep(cfg, st, upload, nowMs, random).records;
            && WellKeyed(left) && PartOf(left, st.records) && WellKeyed(after) && after.Keys <= left.Keys
            && (selection.None? ==> left == map[] && after == map[])
            && (selection.Some? ==>
                  var batch, outcome := selection.value.records, AnswerTo(upload, selection.value);
                  && |batch| >= 1 && BatchFrom(batch, left)
                  && (forall k :: k in left && k !in IdSet(batch) ==> k in after && after[k] == left[k])
                  && (forall r :: r in batch ==>
                        if Gone(cfg, batch, r, outcome) then IdOf(r) !in after
                        else IdOf(r) in after && after[IdOf(r)] == Bump(r, nowMs, FailureOf(outcome))))
  {
    hide PruneStep, Selected, SettledRecords, SettledMeta, Gone, Bump, Fault, CapsFor, DroppedIds, Due;
    PruneFacts(cfg, st.records, nowMs);
    SelectedFacts(cfg, st, nowMs);
    FlushKeyed(cfg, st, upload, nowMs, random);
    var left, selection := PruneStep(cfg, st.records, nowMs).0, Selected(cfg, st, nowMs);
    if selection.Some? {
      SettledFacts(cfg, left, selection.value.records, AnswerTo(upload, selection.value), nowMs);
    }
  }

  lemma FlushKeepsSequence(cfg: QueueConfig, st: QueueState, upload: Upload, nowMs: real, random: Num)
    requires WellKeyed(st.records)
    ensures MetaOf(FlushStep(cfg, st, upload, nowMs, random)).nextSequenceNumber == MetaOf(st).nextSequenceNumber
  {
    hide PruneStep, Selected, SettledRecords, Wait, RetryDisposition;
  }

  /**
   * Every record a flush leaves was there before, with one more attempt exactly if it was submitted, and still
   * one to spare.
   */
  lemma FlushBumps(cfg: QueueConfig, st: QueueState, upload: Upload, nowMs: real, random: Num, k: string)
    requires WellKeyed(st.records) && |st.records| <= cfg.maxEvents
    requires forall k :: k in st.records ==> st.records[k].attemptCount < cfg.maxAttempts
    requires k in FlushStep(cfg, st, upload, nowMs, random).records
    ensures var after := FlushStep(cfg, st, upload, nowMs, random).records;
            && k in st.records
            && SameEvent(after[k], st.records[k])
            && after[k].attemptCount < cfg.maxAttempts
            && after[k].attemptCount == st.records[k].attemptCount
               + (if Due(MetaOf(st), nowMs) && Selected(cfg, st, nowMs).Some?
                 && k in IdSet(Selected(cfg, st, nowMs).value.records) then 1 else 0)
  {
    hide PruneStep, Selected, SettleStep, Due, Confirmed;
    if Due(MetaOf(st), nowMs) {
      FlushFacts(cfg, st, upload, nowMs, random);
      var left, selection := PruneStep(cfg, st.records, nowMs).0, Selected(cfg, st, nowMs);
      if k in IdSet(selection.value.records) {
        BatchIds(selection.value.records, left);
      }
    }
  }

  lemma FlushInv(cfg: QueueConfig, st: QueueState, upload: Upload, nowMs: real, random: Num)
    requires Inv(cfg, st)
    ensures Inv(cfg, FlushStep(cfg, st, upload, nowMs, random))
  {
    hide FlushStep, Due, Selected;
    var after := FlushStep(cfg, st, upload, nowMs, random);
    FlushKeyed(cfg, st, upload, nowMs, random);
    FlushKeepsSequence(cfg, st, upload, nowMs, random);
    forall k | k in after.records
      ensures k in st.records && Sound(cfg, after.records[k], MetaOf(st).nextSequenceNumber) {
      FlushBumps(cfg, st, upload, nowMs, random, k);
    }
    SubsetSize(after.records.Keys, st.records.Keys);
  }

  lemma EnqueueInv(cfg: QueueConfig, st: QueueState, s: Submission, nowMs: real)
    requires WithinLimits(cfg) && Inv(cfg, st)
    ensures Inv(cfg, EnqueueStep(cfg, st, s, nowMs).0)
    ensures Refusal(cfg, s).None? ==>
              MetaOf(EnqueueStep(cfg, st, s, nowMs).0).nextSequenceNumber > AcceptedEvent(cfg, s).sequenceNumber
    ensures MetaOf(EnqueueStep(cfg, st, s, nowMs).0).nextSequenceNumber >= MetaOf(st).nextSequenceNumber
  {
    hide PruneStep, Refusal;
    if Refusal(cfg, s).None? {
      EnqueueFacts(cfg, st, s, nowMs);
    }
  }

  /** Size, attempts and sequence numbers are bounded by every call. */
  lemma StepInv(cfg: QueueConfig, st: QueueState, op: Op)
    requires WithinLimits(cfg) && Inv(cfg, st)
    ensures Inv(cfg, Step(cfg, st, op))
    ensures MetaOf(Step(cfg, st, op)).nextSequenceNumber >= MetaOf(st).nextSequenceNumber
    ensures Enqueues(cfg, op) ==>
              MetaOf(Step(cfg, st, op)).nextSequenceNumber > AcceptedEvent(cfg, op.submission).sequenceNumber
    ensures op.ReserveOp? ==> MetaOf(Step(cfg, st, op)).nextSequenceNumber > ReserveStep(st).1
  {
    hide WithinLimits, EnqueueStep, FlushStep, Refusal, AcceptedEvent;
    match op
    case EnqueueOp(s, nowMs) => EnqueueInv(cfg, st, s, nowMs);
    case FlushOp(upload, nowMs, random) =>
      FlushInv(cfg, st, upload, nowMs, random);
      FlushKeepsSequence(cfg, st, upload, nowMs, random);
    case ReserveOp =>
  }

  /** On every run from an empty queue: at most `maxEvents` (5000) records, each with an attempt left. */
  lemma {:induction false} RunInv(cfg: QueueConfig, st: QueueState, ops: seq<Op>)
    requires WithinLimits(cfg) && Inv(cfg, st)
    ensures Inv(cfg, Run(cfg, st, ops))
    ensures |Run(cfg, st, ops).records| <= cfg.maxEvents <= MAX_QUEUED_EVENTS
    ensures forall k :: k in Run(cfg, st, ops).records ==> Run(cfg, st, ops).records[k].attemptCount < cfg.maxAttempts
    ensures MetaOf(Run(cfg, st, ops)).nextSequenceNumber >= MetaOf(st).nextSequenceNumber
    decreases |ops|
  {
    hide Step;
    if ops != [] {
      StepInv(cfg, st, ops[0]);
      RunInv(cfg, Step(cfg, st, ops[0]), ops[1..]);
    }
  }

  lemma {:induction false} RunSplits(cfg: QueueConfig, st: QueueState, before: seq<Op>, after: seq<Op>)
    requires WellKeyed(st.records)
    ensures WellKeyed(Run(cfg, st, before).records)
    ensures Run(cfg, st, before + after) == Run(cfg, Run(cfg, st, before), after)
    decreases |before|
  {
    hide Step;
    if before == [] {
      assert before + after == after;
    } else {
      StepKeyed(cfg, st, before[0]);
      RunSplits(cfg, Step(cfg, st, before[0]), before[1..], after);
      assert (before + after)[0] == before[0] && (before + after)[1..] == before[1..] + after;
    }
  }

  /** The sequence number an operation issues or takes in, if it does. */
  ghost function Numbered(cfg: QueueConfig, st: QueueState, op: Op): Option<nat> {
    if op.ReserveOp? then Some(ReserveStep(st).1)
    else if Enqueues(cfg, op) then Some(AcceptedEvent(cfg, op.submission).sequenceNumber)
    else None
  }

  /**
   * A reserved number exceeds every number reserved or enqueued before it, with anything in between.
   */
  lemma ReservedNumbersIncrease(cfg: QueueConfig, before: seq<Op>, op: Op, between: seq<Op>)
    requires WithinLimits(cfg)
    ensures Inv(cfg, EMPTY_QUEUE)
    ensures WellKeyed(Run(cfg, EMPTY_QUEUE, before).records)
    ensures WellKeyed(Run(cfg, EMPTY_QUEUE, before + [op] + between).records)
    ensures var n := Numbered(cfg, Run(cfg, EMPTY_QUEUE, before), op);
            n.Some? ==> n.value < ReserveStep(Run(cfg, EMPTY_QUEUE, before + [op] + between)).1
  {
    hide Step, WithinLimits, Enqueues, AcceptedEvent, Run;
    var st := Run(cfg, EMPTY_QUEUE, before);
    RunInv(cfg, EMPTY_QUEUE, before);
    RunSplits(cfg, EMPTY_QUEUE, before, [op] + between);
    assert before + ([op] + between) == before + [op] + between;
    StepInv(cfg, st, op);
    RunOne(cfg, st, op, between);
    RunInv(cfg, Step(cfg, st, op), between);
  }

  /** The `k`th call reserved or took in the number just below `next`. */
  ghost predicate IssuedBefore(cfg: QueueConfig, st: QueueState, ops: seq<Op>, k: nat, next: nat)
    requires WellKeyed(st.records) && k < |ops|
  {
    match Numbered(cfg, Run(cfg, st, ops[..k]), ops[k])
    case Some(issued) => issued + 1 == next
    case None => false
  }

  /** The number one below the next one, if it is there, was issued by a call of the run. */
  lemma {:induction false} NextWasIssued(cfg: QueueConfig, st: QueueState, ops: seq<Op>)
    requires WithinLimits(cfg) && Inv(cfg, st) && WellKeyed(st.records)
    ensures var next := MetaOf(Run(cfg, st, ops)).nextSequenceNumber;
            next == MetaOf(st).nextSequenceNumber || exists k :: 0 <= k < |ops| && IssuedBefore(cfg, st, ops, k, next)
    decreases |ops|
  {
    hide Step, WithinLimits, Numbered, Inv;
    if ops != [] {
      var later := Step(cfg, st, ops[0]);
      StepInv(cfg, st, ops[0]);
      StepKeyed(cfg, st, ops[0]);
      var next := MetaOf(Run(cfg, later, ops[1..])).nextSequenceNumber;
      NextWasIssued(cfg, later, ops[1..]);
      if k: nat :| k < |ops| - 1 && IssuedBefore(cfg, later, ops[1..], k, next) {
        assert ops[..k + 1] == [ops[0]] + ops[1..][..k] && ops[1..][k] == ops[k + 1];
        RunOne(cfg, st, ops[0], ops[1..][..k]);
        assert IssuedBefore(cfg, st, ops, k + 1, next);
      } else {
        StepIssues(cfg, st, ops[0]);
        assert ops[..0] == [];
        assert next == MetaOf(st).nextSequenceNumber || IssuedBefore(cfg, st, ops, 0, next);
      }
    }
  }

  lemma StepIssues(cfg: QueueConfig, st: QueueState, op: Op)
    requires WithinLimits(cfg) && Inv(cfg, st)
    ensures var next := MetaOf(Step(cfg, st, op)).nextSequenceNumber;
            next == MetaOf(st).nextSequenceNumber || (next > 0 && Numbered(cfg, st, op) == Some(next - 1))
  {
    hide WithinLimits, PruneStep, FlushStep, Refusal, Sound;
    match op
    case EnqueueOp(s, nowMs) =>
      if Refusal(cfg, s).None? { EnqueueFacts(cfg, st, s, nowMs); }
    case FlushOp(upload, nowMs, random) => FlushKeepsSequence(cfg, st, upload, nowMs, random);
    case ReserveOp =>
  }

  /** On every run a reservation yields zero, or the number after one reserved or enqueued before: none is skipped. */
  lemma ReservedIsNext(cfg: QueueConfig, ops: seq<Op>)
    requires WithinLimits(cfg)
    ensures var n := ReserveStep(Run(cfg, EMPTY_QUEUE, ops)).1;
            n == 0 || exists k :: 0 <= k < |ops| && IssuedBefore(cfg, EMPTY_QUEUE, ops, k, n)
  {
    hide WithinLimits, Run, Numbered, IssuedBefore;
    NextWasIssued(cfg, EMPTY_QUEUE, ops);
  }

  lemma RunOne(cfg: QueueConfig, st: QueueState, op: Op, rest: seq<Op>)
    requires WellKeyed(st.records)
    ensures WellKeyed(Step(cfg, st, op).records)
    ensures Run(cfg, st, [op] + rest) == Run(cfg, Step(cfg, st, op), rest)
  {
    hide Step;
    StepKeyed(cfg, st, op);
    assert ([op] + rest)[1..] == rest;
  }
}
