/** No starvation: a pending record's turn comes, whatever is enqueued behind it. */
module QueueFairness {
  import opened Basics
  import opened RetryPolicies
  import opened Sorting
  import opened QueueTypes
  import opened QueueListing
  import opened QueueSelection
  import opened QueueRetention
  import opened QueueModel
  import opened QueueFacts
  import opened QueueRuns
  import opened QueueDrain
  import opened QueueHistory
  import opened QueueRetries

  /** Within a device, the queue order is the order of waiting. */
  ghost predicate Orderly(m: Records) {
    forall a, b :: a in m && b in m && m[a].event.deviceId == m[b].event.deviceId && Precedes(m[a], m[b]) ==>
      m[a].queuedAtMs <= m[b].queuedAtMs
  }

  /** The other records that have waited at least since `sinceMs`. */
  function AheadOf(m: Records, sinceMs: real, id: string): Records {
    map k | k in m && k != id && m[k].queuedAtMs <= sinceMs :: m[k]
  }

  /** The event is enqueued after everything pending, with a number above those of its own device. */
  ghost predicate InTurn(cfg: QueueConfig, m: Records, op: Op) {
    Enqueues(cfg, op) ==>
      forall k :: k in m && k != op.submission.eventId ==>
        && m[k].queuedAtMs <= op.nowMs
        && (m[k].event.deviceId == op.submission.deviceId ==>
              m[k].event.sequenceNumber < AcceptedEvent(cfg, op.submission).sequenceNumber)
  }

  /** Every enqueue of the run is in turn, and strictly later than `sinceMs`. */
  ghost predicate TurnsKept(cfg: QueueConfig, st: QueueState, ops: seq<Op>, sinceMs: real)
    requires WellKeyed(st.records)
    decreases |ops|
  {
    ops != [] ==>
      && InTurn(cfg, st.records, ops[0])
      && (Enqueues(cfg, ops[0]) ==> ops[0].nowMs > sinceMs)
      && (StepKeyed(cfg, st, ops[0]); TurnsKept(cfg, Step(cfg, st, ops[0]), ops[1..], sinceMs))
  }

  // ---- the order of waiting is kept --------------------------------------

  lemma OrderlyPart(part: Records, whole: Records)
    requires Orderly(whole)
    requires forall k :: k in part ==> k in whole && SameEvent(part[k], whole[k])
    ensures Orderly(part)
  {
    forall a, b | a in part && b in part && part[a].event.deviceId == part[b].event.deviceId
      && Precedes(part[a], part[b])
      ensures part[a].queuedAtMs <= part[b].queuedAtMs
    {
      assert Precedes(whole[a], whole[b]);
    }
  }

  lemma OrderlyInserted(cfg: QueueConfig, m: Records, op: Op)
    requires Orderly(m) && Enqueues(cfg, op) && InTurn(cfg, m, op)
    ensures Orderly(Inserted(m, AcceptedEvent(cfg, op.submission), op.nowMs))
  {
  }

  lemma OrderlyStep(cfg: QueueConfig, st: QueueState, op: Op)
    requires WithinLimits(cfg) && Inv(cfg, st) && Orderly(st.records) && InTurn(cfg, st.records, op)
    ensures Orderly(Step(cfg, st, op).records)
  {
    hide WithinLimits, Orderly, InTurn, FlushStep, Refusal, PruneStep, Precedes, Inserted, AcceptedEvent;
    match op
    case EnqueueOp(s, nowMs) =>
      if Enqueues(cfg, op) {
        EnqueueFacts(cfg, st, s, nowMs);
        OrderlyInserted(cfg, st.records, op);
        OrderlyPart(Step(cfg, st, op).records, Inserted(st.records, AcceptedEvent(cfg, s), nowMs));
      }
    case FlushOp(upload, nowMs, random) =>
      var after := FlushStep(cfg, st, upload, nowMs, random).records;
      forall k | k in after ensures k in st.records && SameEvent(after[k], st.records[k]) {
        FlushBumps(cfg, st, upload, nowMs, random, k);
      }
      OrderlyPart(after, st.records);
    case ReserveOp =>
  }

  // ---- one due flush -----------------------------------------------------

  /** A nonempty batch holds a record that has waited as long as any. */
  lemma BatchHoldsOldest(cfg: QueueConfig, st: QueueState, nowMs: real, id: string)
    requires Inv(cfg, st) && Orderly(st.records) && Selected(cfg, st, nowMs).Some?
    requires id in PruneStep(cfg, st.records, nowMs).0
    ensures exists r :: r in Selected(cfg, st, nowMs).value.records && r.queuedAtMs <= st.records[id].queuedAtMs
  {
    hide Prune, Precedes, Fault, DroppedIds, KeyOver, BatchLimit, Select, Sound, Orderly;
    PruneFacts(cfg, st.records, nowMs);
    var (left, result) := PruneStep(cfg, st.records, nowMs);
    var size := Finite(BatchSize(cfg, MetaOf(st)) as real);
    ListingMembers(result.keep, left);
    BatchMeaning(cfg.hash, result.keep, size);
    var b := Selected(cfg, st, nowMs).value;
    var head :| head in result.keep && head.event.deviceId == b.deviceId
      && forall o :: o in result.keep ==> head.queuedAtMs <= o.queuedAtMs;
    assert left[id] in result.keep;
    if head !in b.records {
      var first := b.records[0];
      assert first in b.records;
      WaitedLonger(st.records, first, head);
    }
  }

  lemma WaitedLonger(m: Records, first: QueuedEvent, second: QueuedEvent)
    requires Orderly(m) && first.event.deviceId == second.event.deviceId && Precedes(first, second)
    requires IdOf(first) in m && m[IdOf(first)] == first && IdOf(second) in m && m[IdOf(second)] == second
    ensures first.queuedAtMs <= second.queuedAtMs
  {
  }

  lemma IsAhead(m: Records, sinceMs: real, id: string, k: string)
    requires k in m && k != id && m[k].queuedAtMs <= sinceMs
    ensures k in AheadOf(m, sinceMs, id)
  {
  }

  /** A record ahead is submitted by the flush, or dropped by retention before it. */
  ghost predicate ServesAhead(cfg: QueueConfig, st: QueueState, op: Op, id: string)
    requires WellKeyed(st.records) && id in st.records && op.FlushOp?
  {
    exists k :: k in AheadOf(st.records, st.records[id].queuedAtMs, id)
      && (k in Submitted(cfg, st, op) || k !in PruneStep(cfg, st.records, op.nowMs).0)
  }

  /** A due flush that passes a record over lessens the work ahead of it exactly if it serves a record ahead. */
  lemma PassedOverCostsExactly(cfg: QueueConfig, st: QueueState, op: Op, id: string)
    requires WithinLimits(cfg) && Inv(cfg, st) && op.FlushOp? && Due(MetaOf(st), op.nowMs)
    requires WellKeyed(Step(cfg, st, op).records) && id in Step(cfg, st, op).records && id !in Submitted(cfg, st, op)
    ensures id in st.records
    ensures var sinceMs := st.records[id].queuedAtMs;
            WorkOf(cfg, AheadOf(Step(cfg, st, op).records, sinceMs, id)) < WorkOf(cfg, AheadOf(st.records, sinceMs, id))
            <==> ServesAhead(cfg, st, op, id)
  {
    hide WithinLimits, FlushStep, Selected, PruneStep, Due, WorkOf, Gone, Bump;
    FlushFacts(cfg, st, op.upload, op.nowMs, op.random);
    FlushBumps(cfg, st, op.upload, op.nowMs, op.random, id);
    var sinceMs := st.records[id].queuedAtMs;
    if ServesAhead(cfg, st, op, id) {
      var k :| k in AheadOf(st.records, sinceMs, id)
        && (k in Submitted(cfg, st, op) || k !in PruneStep(cfg, st.records, op.nowMs).0);
      AheadDrops(cfg, st, op, id, sinceMs, {k});
    } else {
      AheadUntouched(cfg, st, op, id);
    }
  }

  lemma AheadUntouched(cfg: QueueConfig, st: QueueState, op: Op, id: string)
    requires Inv(cfg, st) && op.FlushOp? && Due(MetaOf(st), op.nowMs) && id in st.records
    requires WellKeyed(Step(cfg, st, op).records) && !ServesAhead(cfg, st, op, id)
    requires Selected(cfg, st, op.nowMs).Some?
    ensures var sinceMs := st.records[id].queuedAtMs;
            AheadOf(Step(cfg, st, op).records, sinceMs, id) == AheadOf(st.records, sinceMs, id)
  {
    hide FlushStep, Selected, PruneStep, Due, Gone, Bump;
    FlushFacts(cfg, st, op.upload, op.nowMs, op.random);
    var sinceMs, before, after := st.records[id].queuedAtMs, st.records, Step(cfg, st, op).records;
    forall k | k in AheadOf(before, sinceMs, id) ensures k in after && after[k] == before[k] {
      assert k !in Submitted(cfg, st, op) && k in PruneStep(cfg, before, op.nowMs).0;
    }
    forall k | k in after && k !in Submitted(cfg, st, op) ensures k in before && after[k] == before[k] {}
    forall k | k in AheadOf(after, sinceMs, id) ensures k in AheadOf(before, sinceMs, id) {
      FlushBumps(cfg, st, op.upload, op.nowMs, op.random, k);
    }
  }

  /** In orderly queues every due flush that passes a record over does so. */
  lemma PassedOverCosts(cfg: QueueConfig, st: QueueState, op: Op, id: string)
    requires WithinLimits(cfg) && Inv(cfg, st) && Orderly(st.records)
    requires op.FlushOp? && Due(MetaOf(st), op.nowMs)
    requires WellKeyed(Step(cfg, st, op).records) && id in Step(cfg, st, op).records && id !in Submitted(cfg, st, op)
    ensures id in st.records
    ensures var sinceMs := st.records[id].queuedAtMs;
            WorkOf(cfg, AheadOf(Step(cfg, st, op).records, sinceMs, id)) < WorkOf(cfg, AheadOf(st.records, sinceMs, id))
  {
    hide WithinLimits, FlushStep, Selected, PruneStep, Due, WorkOf, Gone, Bump, Orderly, AheadOf;
    FlushFacts(cfg, st, op.upload, op.nowMs, op.random);
    FlushBumps(cfg, st, op.upload, op.nowMs, op.random, id);
    BatchHoldsOldest(cfg, st, op.nowMs, id);
    var r :| r in Selected(cfg, st, op.nowMs).value.records && r.queuedAtMs <= st.records[id].queuedAtMs;
    assert IdOf(r) in Submitted(cfg, st, op);
    IsAhead(st.records, st.records[id].queuedAtMs, id, IdOf(r));
    PassedOverCostsExactly(cfg, st, op, id);
  }

  /** No flush adds to the work ahead, and each record ahead that it submits or drops lessens it. */
  lemma AheadDrops(cfg: QueueConfig, st: QueueState, op: Op, id: string, sinceMs: real, sent: set<string>)
    requires WithinLimits(cfg) && Inv(cfg, st) && op.FlushOp?
    requires WellKeyed(Step(cfg, st, op).records) && sent <= AheadOf(st.records, sinceMs, id).Keys
    requires forall k :: k in sent ==> k in Submitted(cfg, st, op) || k !in Step(cfg, st, op).records
    ensures WorkOf(cfg, AheadOf(Step(cfg, st, op).records, sinceMs, id)) + |sent|
            <= WorkOf(cfg, AheadOf(st.records, sinceMs, id))
  {
    hide WithinLimits, FlushStep, Selected, Due, WorkOf;
    FlushInv(cfg, st, op.upload, op.nowMs, op.random);
    var before, after := st.records, FlushStep(cfg, st, op.upload, op.nowMs, op.random).records;
    forall k | k in after
      ensures k in before && SameEvent(after[k], before[k]) && before[k].attemptCount <= after[k].attemptCount
      ensures k in Submitted(cfg, st, op) ==> before[k].attemptCount < after[k].attemptCount
    {
      FlushBumps(cfg, st, op.upload, op.nowMs, op.random, k);
    }
    WorkDrops(cfg, AheadOf(before, sinceMs, id), AheadOf(after, sinceMs, id), sent);
  }

  lemma EnqueuedBehind(cfg: QueueConfig, st: QueueState, op: Op, id: string, sinceMs: real)
    requires WithinLimits(cfg) && Inv(cfg, st) && op.EnqueueOp? && (Enqueues(cfg, op) ==> op.nowMs > sinceMs)
    ensures WellKeyed(Step(cfg, st, op).records)
    ensures WorkOf(cfg, AheadOf(Step(cfg, st, op).records, sinceMs, id))
            <= WorkOf(cfg, AheadOf(st.records, sinceMs, id))
  {
    hide WithinLimits, WorkOf, PruneStep, Refusal;
    EnqueueInv(cfg, st, op.submission, op.nowMs);
    if Enqueues(cfg, op) { EnqueueFacts(cfg, st, op.submission, op.nowMs); }
    WorkDrops(cfg, AheadOf(st.records, sinceMs, id), AheadOf(Step(cfg, st, op).records, sinceMs, id), {});
  }

  // ---- whole runs --------------------------------------------------------

  lemma StepServes(cfg: QueueConfig, st: QueueState, op: Op, id: string)
    requires WithinLimits(cfg) && Inv(cfg, st) && Orderly(st.records) && id in st.records
    requires Enqueues(cfg, op) ==> op.nowMs > st.records[id].queuedAtMs
    requires WellKeyed(Step(cfg, st, op).records) && id in Step(cfg, st, op).records && id !in Submitted(cfg, st, op)
    ensures var sinceMs := st.records[id].queuedAtMs;
            WorkOf(cfg, AheadOf(Step(cfg, st, op).records, sinceMs, id))
            + (if op.FlushOp? && Due(MetaOf(st), op.nowMs) then 1 else 0)
            <= WorkOf(cfg, AheadOf(st.records, sinceMs, id))
  {
    hide WithinLimits, Orderly, EnqueueStep, FlushStep, Submitted, Due, WorkOf, AheadOf, Sound;
    match op
    case EnqueueOp(_, _) => EnqueuedBehind(cfg, st, op, id, st.records[id].queuedAtMs);
    case FlushOp(_, nowMs, _) =>
      if Due(MetaOf(st), nowMs) {
        PassedOverCosts(cfg, st, op, id);
      } else {
        AheadDrops(cfg, st, op, id, st.records[id].queuedAtMs, {});
      }
    case ReserveOp =>
  }

  /** While a record is pending and never submitted, each due flush is paid for by the work ahead of it. */
  lemma {:induction false} WaitingIsPaidFor(cfg: QueueConfig, st: QueueState, ops: seq<Op>, id: string)
    requires WithinLimits(cfg) && Inv(cfg, st) && Orderly(st.records) && EnqueuedAs(cfg, ops, id) == 0
    requires id in Run(cfg, st, ops).records && id in st.records && Submissions(cfg, st, ops, id) == 0
    requires TurnsKept(cfg, st, ops, st.records[id].queuedAtMs)
    ensures DueFlushes(cfg, st, ops) <= WorkOf(cfg, AheadOf(st.records, st.records[id].queuedAtMs, id))
    decreases |ops|
  {
    hide WithinLimits, Orderly, InTurn, Step, Submitted, TakesIn, Due, WorkOf, AheadOf, Sound, Enqueues;
    if ops == [] {
      AheadWorkCounts(cfg, st, id);
    } else {
      var next := Step(cfg, st, ops[0]);
      StepInv(cfg, st, ops[0]);
      RunCounts(cfg, next, ops[1..], id);
      StepCounts(cfg, st, ops[0], id);
      OrderlyStep(cfg, st, ops[0]);
      StepServes(cfg, st, ops[0], id);
      WaitingIsPaidFor(cfg, next, ops[1..], id);
    }
  }

  /** Runs that enqueue in turn keep every device in the order of waiting. */
  lemma {:induction false} OrderlyRun(cfg: QueueConfig, st: QueueState, ops: seq<Op>, sinceMs: real)
    requires WithinLimits(cfg) && Inv(cfg, st) && Orderly(st.records) && TurnsKept(cfg, st, ops, sinceMs)
    ensures WellKeyed(Run(cfg, st, ops).records) && Orderly(Run(cfg, st, ops).records)
    decreases |ops|
  {
    hide WithinLimits, Orderly, InTurn, Step, Sound, Enqueues;
    if ops != [] {
      StepInv(cfg, st, ops[0]);
      OrderlyStep(cfg, st, ops[0]);
      OrderlyRun(cfg, Step(cfg, st, ops[0]), ops[1..], sinceMs);
    }
  }

  lemma AheadWorkCounts(cfg: QueueConfig, st: QueueState, id: string)
    requires Inv(cfg, st) && id in st.records
    ensures 0 <= WorkOf(cfg, AheadOf(st.records, st.records[id].queuedAtMs, id))
    ensures WorkOf(cfg, AheadOf(st.records, st.records[id].queuedAtMs, id))
            <= cfg.maxAttempts * |AheadOf(st.records, st.records[id].queuedAtMs, id)|
  {
    hide WorkOf;
    WorkBounds(cfg, AheadOf(st.records, st.records[id].queuedAtMs, id));
  }

  /**
   * A chatty device does not starve a quiet one.  Whatever is enqueued behind a pending record, in
   * turn and strictly later, more due flushes than there are attempts left among the records that
   * have waited at least as long submit it, or it is gone; and those attempts are at most
   * `maxAttempts` for each such record.
   */
  lemma NoStarvation(cfg: QueueConfig, st: QueueState, ops: seq<Op>, id: string)
    requires WithinLimits(cfg) && Inv(cfg, st) && Orderly(st.records) && id in st.records
    requires TurnsKept(cfg, st, ops, st.records[id].queuedAtMs) && EnqueuedAs(cfg, ops, id) == 0
    requires WellKeyed(Run(cfg, st, ops).records)
    ensures var ahead := AheadOf(st.records, st.records[id].queuedAtMs, id);
            && WorkOf(cfg, ahead) <= cfg.maxAttempts * |ahead|
            && (DueFlushes(cfg, st, ops) > WorkOf(cfg, ahead) ==>
                  Submissions(cfg, st, ops, id) >= 1 || id !in Run(cfg, st, ops).records)
  {
    hide WithinLimits, Orderly, WorkOf, AheadOf, DueFlushes, Submissions, Run, TurnsKept, Sound;
    AheadWorkCounts(cfg, st, id);
    if id in Run(cfg, st, ops).records && Submissions(cfg, st, ops, id) == 0 {
      WaitingIsPaidFor(cfg, st, ops, id);
    }
  }

  // ---- out of turn -------------------------------------------------------

  /** The record has waited as long as any. */
  ghost predicate WaitedLongest(records: seq<QueuedEvent>, r: QueuedEvent) {
    r in records && forall o :: o in records ==> r.queuedAtMs <= o.queuedAtMs
  }

  ghost predicate HoldsLongest(records: seq<QueuedEvent>, batch: seq<QueuedEvent>) {
    exists r :: r in batch && WaitedLongest(records, r)
  }

  /** The batch that some size limit selects holds a record that has waited longest. */
  ghost predicate LongestServed(hash: string -> string, records: seq<QueuedEvent>, size: Num) {
    records != [] && HoldsLongest(records, Select(hash, records, size).value.records)
  }

  /** The chosen device's records, in sequence order. */
  function ChosenDevice(records: seq<QueuedEvent>): (own: seq<QueuedEvent>)
    requires records != []
    ensures own != []
  {
    SortPermutes(Precedes, records);
    var ordered := OrderQueue(records);
    var head := ordered[OldestIndex(ordered)];
    assert head in OfDevice(ordered, head.event.deviceId);
    OfDevice(ordered, head.event.deviceId)
  }

  lemma SelectTakes(hash: string -> string, records: seq<QueuedEvent>, size: Num)
    requires records != []
    ensures Select(hash, records, size).Some?
    ensures Select(hash, records, size).value.records == Take(ChosenDevice(records), BatchLimit(size))
  {
    hide Precedes, KeyOver, BatchLimit;
  }

  /**
   * The device that has waited longest is served first, but by sequence number: at every size the
   * batch holds a record that has waited longest if and only if the chosen device's lowest-numbered
   * record has.
   */
  lemma LongestServedExactly(hash: string -> string, records: seq<QueuedEvent>)
    requires records != []
    ensures (forall size: Num :: LongestServed(hash, records, size))
            <==> WaitedLongest(records, ChosenDevice(records)[0])
  {
    hide Select, ChosenDevice, WaitedLongest;
    var first := ChosenDevice(records)[0];
    if WaitedLongest(records, first) {
      forall size: Num ensures LongestServed(hash, records, size) {
        SelectTakes(hash, records, size);
        assert Take(ChosenDevice(records), BatchLimit(size))[0] == first;
      }
    } else {
      SelectTakes(hash, records, Finite(1.0));
      assert Take(ChosenDevice(records), 1) == [first];
      assert !LongestServed(hash, records, Finite(1.0));
    }
  }

  function Waiting(eventId: string, deviceId: string, sequenceNumber: nat, queuedAtMs: real): QueuedEvent {
    QueuedEvent(Event(eventId, deviceId, sequenceNumber, "", Some(2.0), ""), queuedAtMs, 0, None, None)
  }

  /**
   * Such a queue: device "a" enqueued number 5 first and number 4 last, device "b" in between.
   * With batches of one, the due flush submits number 4, which has waited least of all.
   */
  lemma OutOfTurnPassesOver(cfg: QueueConfig)
    requires WithinLimits(cfg) && cfg.maxBatchSize == 1 && cfg.maxEvents >= 3
    ensures var first, between, last := Waiting("r", "a", 5, 0.0), Waiting("q", "b", 0, 1.0), Waiting("x", "a", 4, 2.0);
            var st := QueueState(
              map["r" := first, "q" := between, "x" := last], Some(DEFAULT_QUEUE_META.(nextSequenceNumber := 6)));
            && Inv(cfg, st) && Due(MetaOf(st), 2.0)
            && Selected(cfg, st, 2.0).Some? && Selected(cfg, st, 2.0).value.records == [last]
  {
    hide WellFormed, KeyOver, Selected, SelectFrom;
    var first, between, last := Waiting("r", "a", 5, 0.0), Waiting("q", "b", 0, 1.0), Waiting("x", "a", 4, 2.0);
    var records := map["r" := first, "q" := between, "x" := last];
    var st := QueueState(records, Some(DEFAULT_QUEUE_META.(nextSequenceNumber := 6)));
    var listed := [last, first, between];
    ThreeListed(records);
    SelectedWhole(cfg, st, 2.0);
    assert BatchLimit(Finite(1.0)) == 1;
    ThreeSelected(cfg.hash);
  }

  lemma ThreeListed(records: Records)
    requires records == map[
               "r" := Waiting("r", "a", 5, 0.0), "q" := Waiting("q", "b", 0, 1.0), "x" := Waiting("x", "a", 4, 2.0)]
    ensures WellKeyed(records) && |records| == 3
    ensures ListOf(records) == [Waiting("x", "a", 4, 2.0), Waiting("r", "a", 5, 0.0), Waiting("q", "b", 0, 1.0)]
  {
    var listed := [Waiting("x", "a", 4, 2.0), Waiting("r", "a", 5, 0.0), Waiting("q", "b", 0, 1.0)];
    hide Sorted, ListOf, Precedes;
    ThreeSorted(listed);
    ListOfLists(records);
    assert IsListing(listed, records);
    ListingUnique(listed, ListOf(records), records);
  }

  lemma ThreeSorted(listed: seq<QueuedEvent>)
    requires listed == [Waiting("x", "a", 4, 2.0), Waiting("r", "a", 5, 0.0), Waiting("q", "b", 0, 1.0)]
    ensures Sorted(Precedes, listed) && DistinctIds(listed)
    ensures IdOf(listed[0]) == "x" && IdOf(listed[1]) == "r" && IdOf(listed[2]) == "q"
  {
    assert Precedes(listed[0], listed[1]);
    assert Precedes(listed[0], listed[2]) && Precedes(listed[1], listed[2]);
  }

  lemma ThreeSelected(hash: string -> string)
    ensures var listed := [Waiting("x", "a", 4, 2.0), Waiting("r", "a", 5, 0.0), Waiting("q", "b", 0, 1.0)];
            SelectFrom(hash, listed, 1).records == [Waiting("x", "a", 4, 2.0)]
  {
    hide KeyOver;
    var x, r, q := Waiting("x", "a", 4, 2.0), Waiting("r", "a", 5, 0.0), Waiting("q", "b", 0, 1.0);
    var listed := [x, r, q];
    assert OldestIndex(listed) == 1;
    assert listed[1..] == [r, q] && listed[1..][1..] == [q] && [q][1..] == [];
    assert OfDevice([q], "a") == [] && OfDevice([r, q], "a") == [r];
    assert OfDevice(listed, "a") == [x, r];
  }
}
