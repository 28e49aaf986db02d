/** Conservation: every accepted event is pending, confirmed, or dropped for a named cause. */
module QueueConservation {
  import opened Basics
  import opened QueueTypes
  import opened QueueListing
  import opened QueueRetention
  import opened QueueModel
  import opened QueueFacts
  import opened QueueRuns

  /** How an accepted event left the queue. */
  datatype Fate =
    | ConfirmedIn(batch: set<string>)
    | RefusedWith(reason: Reason)
    | GaveUp
    | AgedOut
    | Overflowed

  // ---- the ledger entries of one call ------------------------------------

  function PrunedFate(r: QueuedEvent, nowMs: real, caps: Caps): Fate {
    match Fault(r, nowMs, caps)
    case Some(MaxAttemptsExceeded) => GaveUp
    case Some(_) => AgedOut
    case None => Overflowed
  }

  /** An entry for each id that retention dropped. */
  ghost function PruneFates(cfg: QueueConfig, records: Records, nowMs: real): map<string, Fate>
    requires WellKeyed(records)
  {
    map k | k in records && k in DroppedIds(PruneStep(cfg, records, nowMs).1.dropped) ::
      PrunedFate(records[k], nowMs, CapsFor(cfg))
  }

  function BatchFate(cfg: QueueConfig, batch: seq<QueuedEvent>, r: QueuedEvent, outcome: UploadOutcome): Option<Fate> {
    if outcome.Uploaded? && IdOf(r) in SetOf(Confirmed(batch, outcome.acceptedEventIds))
      then Some(ConfirmedIn(IdSet(batch)))
    else if outcome.Failed? && Hopeless(outcome.reason) then Some(RefusedWith(outcome.reason))
    else if r.attemptCount + 1 >= cfg.maxAttempts then Some(GaveUp)
    else None
  }

  /** An entry for each id of the batch that the answer settled for good. */
  ghost function SettleFates(cfg: QueueConfig, left: Records, batch: seq<QueuedEvent>,
    outcome: UploadOutcome): map<string, Fate> {
    map k | k in left && k in IdSet(batch) && BatchFate(cfg, batch, left[k], outcome).Some? ::
      BatchFate(cfg, batch, left[k], outcome).value
  }

  ghost function FlushFates(cfg: QueueConfig, st: QueueState, upload: Upload, nowMs: real): map<string, Fate>
    requires WellKeyed(st.records)
  {
    var selection := Selected(cfg, st, nowMs);
    PruneFates(cfg, st.records, nowMs)
    + if selection.None? then map[]
      else
        SettleFates(cfg, PruneStep(cfg, st.records, nowMs).0, selection.value.records,
          AnswerTo(upload, selection.value))
  }

  ghost function Fates(cfg: QueueConfig, st: QueueState, op: Op): map<string, Fate>
    requires WellKeyed(st.records)
  {
    match op
    case EnqueueOp(s, nowMs) =>
      if Enqueues(cfg, op) && |Inserted(st.records, AcceptedEvent(cfg, s), nowMs)| > cfg.maxEvents then
        PruneFates(cfg, Inserted(st.records, AcceptedEvent(cfg, s), nowMs), nowMs)
      else map[]
    case FlushOp(upload, nowMs, _) => if Due(MetaOf(st), nowMs) then FlushFates(cfg, st, upload, nowMs) else map[]
    case ReserveOp => map[]
  }

  function TakenIn(cfg: QueueConfig, op: Op): set<string> {
    if Enqueues(cfg, op) then {op.submission.eventId} else {}
  }

  /** Each id of `whole` is in exactly one of the two, and no other id is in either. */
  ghost predicate SplitsInto(whole: set<string>, part: Records, fates: map<string, Fate>) {
    forall id :: (id in part ==> id in whole && id !in fates) && (id in fates ==> id in whole)
      && (id in whole ==> id in part || id in fates)
  }

  lemma SplitsTwice(whole: set<string>, part: Records, fates: map<string, Fate>, less: Records, more: map<string, Fate>)
    requires SplitsInto(whole, part, fates) && SplitsInto(part.Keys, less, more)
    ensures SplitsInto(whole, less, fates + more)
  {
  }

  lemma SplitsNothing(part: Records)
    ensures SplitsInto(part.Keys, part, map[])
  {
  }

  lemma PruneSplits(cfg: QueueConfig, records: Records, nowMs: real)
    requires WellKeyed(records) && |records| <= cfg.maxEvents + 1
    ensures SplitsInto(records.Keys, PruneStep(cfg, records, nowMs).0, PruneFates(cfg, records, nowMs))
  {
    hide PruneStep, DroppedIds, PrunedFate, Fault;
    PruneFacts(cfg, records, nowMs);
  }

  lemma FateOrStays(cfg: QueueConfig, batch: seq<QueuedEvent>, r: QueuedEvent, outcome: UploadOutcome)
    ensures Gone(cfg, batch, r, outcome) <==> BatchFate(cfg, batch, r, outcome).Some?
  {
    hide Confirmed, SetOf, Hopeless;
  }

  lemma SettleSplits(cfg: QueueConfig, left: Records, batch: seq<QueuedEvent>, outcome: UploadOutcome, nowMs: real)
    requires WellKeyed(left) && BatchFrom(batch, left)
    ensures SplitsInto(left.Keys, SettledRecords(cfg, left, batch, outcome, nowMs),
      SettleFates(cfg, left, batch, outcome))
  {
    hide SettledRecords, BatchFate, Gone, Bump;
    SettledFacts(cfg, left, batch, outcome, nowMs);
    BatchIds(batch, left);
    forall k | k in left && k in IdSet(batch)
      ensures k in SettledRecords(cfg, left, batch, outcome, nowMs) <==> BatchFate(cfg, batch, left[k], outcome).None?
    {
      FateOrStays(cfg, batch, left[k], outcome);
    }
  }

  lemma FlushSplits(cfg: QueueConfig, st: QueueState, upload: Upload, nowMs: real, random: Num)
    requires WellKeyed(st.records) && |st.records| <= cfg.maxEvents && Due(MetaOf(st), nowMs)
    ensures SplitsInto(st.records.Keys, FlushStep(cfg, st, upload, nowMs, random).records,
      FlushFates(cfg, st, upload, nowMs))
  {
    hide PruneStep, Selected, Due, PruneFates, SettleFates, SettledRecords, SettledMeta, SplitsInto;
    PruneSplits(cfg, st.records, nowMs);
    FlushFacts(cfg, st, upload, nowMs, random);
    var left, selection := PruneStep(cfg, st.records, nowMs).0, Selected(cfg, st, nowMs);
    var fates := PruneFates(cfg, st.records, nowMs);
    if selection.None? {
      SplitsNothing(left);
      SplitsTwice(st.records.Keys, left, fates, left, map[]);
    } else {
      var batch, outcome := selection.value.records, AnswerTo(upload, selection.value);
      SettleSplits(cfg, left, batch, outcome, nowMs);
      SplitsTwice(st.records.Keys, left, fates, SettledRecords(cfg, left, batch, outcome, nowMs),
        SettleFates(cfg, left, batch, outcome));
    }
  }

  lemma EnqueueSplits(cfg: QueueConfig, st: QueueState, s: Submission, nowMs: real)
    requires WellKeyed(st.records) && |st.records| <= cfg.maxEvents && Refusal(cfg, s).None?
    ensures WellKeyed(Inserted(st.records, AcceptedEvent(cfg, s), nowMs))
    ensures SplitsInto(
              st.records.Keys + {s.eventId},
              EnqueueStep(cfg, st, s, nowMs).0.records,
              if |Inserted(st.records, AcceptedEvent(cfg, s), nowMs)| > cfg.maxEvents then
                PruneFates(cfg, Inserted(st.records, AcceptedEvent(cfg, s), nowMs), nowMs)
              else map[])
  {
    hide PruneStep, Refusal, PruneFates, SplitsInto;
    EnqueueFacts(cfg, st, s, nowMs);
    var put := Inserted(st.records, AcceptedEvent(cfg, s), nowMs);
    PruneSplits(cfg, put, nowMs);
    SplitsNothing(put);
    assert put.Keys == st.records.Keys + {s.eventId};
  }

  /** Every call accounts for every id: what was pending or taken in stays pending or gets an entry. */
  lemma StepConserves(cfg: QueueConfig, st: QueueState, op: Op)
    requires WithinLimits(cfg) && Inv(cfg, st)
    ensures WellKeyed(st.records) && WellKeyed(Step(cfg, st, op).records)
    ensures SplitsInto(st.records.Keys + TakenIn(cfg, op), Step(cfg, st, op).records, Fates(cfg, st, op))
  {
    hide WithinLimits, PruneStep, EnqueueStep, FlushStep, FlushFates, Selected, Due, Refusal, PruneFates, SplitsInto,
      Inserted, AcceptedEvent;
    StepInv(cfg, st, op);
    SplitsNothing(st.records);
    assert st.records.Keys + {} == st.records.Keys;
    match op
    case EnqueueOp(s, nowMs) =>
      if Enqueues(cfg, op) { EnqueueSplits(cfg, st, s, nowMs); } else { RefusedUnchanged(cfg, st, s, nowMs); }
    case FlushOp(upload, nowMs, random) =>
      if Due(MetaOf(st), nowMs) {
        FlushSplits(cfg, st, upload, nowMs, random);
      } else {
        EarlyUnchanged(cfg, st, upload, nowMs, random);
      }
    case ReserveOp =>
  }

  lemma RefusedUnchanged(cfg: QueueConfig, st: QueueState, s: Submission, nowMs: real)
    requires WellKeyed(st.records) && Refusal(cfg, s).Some?
    ensures EnqueueStep(cfg, st, s, nowMs).0 == st
  {
    hide Refusal;
  }

  lemma EarlyUnchanged(cfg: QueueConfig, st: QueueState, upload: Upload, nowMs: real, random: Num)
    requires WellKeyed(st.records) && !Due(MetaOf(st), nowMs)
    ensures FlushStep(cfg, st, upload, nowMs, random) == st
  {
    hide Due, Selected, PruneStep;
  }

  // ---- entries are earned ------------------------------------------------

  /** The upload of a flush, if it makes one, and its answer. */
  ghost predicate Answered(cfg: QueueConfig, st: QueueState, op: Op, batch: seq<QueuedEvent>, outcome: UploadOutcome)
    requires WellKeyed(st.records)
  {
    && op.FlushOp? && Due(MetaOf(st), op.nowMs) && Selected(cfg, st, op.nowMs).Some?
    && batch == Selected(cfg, st, op.nowMs).value.records
      && outcome == AnswerTo(op.upload, Selected(cfg, st, op.nowMs).value)
  }

  /** The server named the id, or confirmed the whole batch. */
  predicate ConfirmsId(outcome: UploadOutcome, id: string) {
    outcome.Uploaded? && (outcome.acceptedEventIds.None? || id in outcome.acceptedEventIds.value)
  }

  /**
   * What each entry of a flush means: confirmed and refused ids were in the batch this call
   * submitted and the server said so; a record given up had used its attempts up, in that batch;
   * and nothing outside the batch leaves but by age.
   */
  ghost predicate EarnedByFlush(cfg: QueueConfig, st: QueueState, op: Op, id: string, fate: Fate)
    requires WellKeyed(st.records)
  {
    && op.FlushOp? && id in st.records
    && match fate
       case AgedOut => op.nowMs - AgeOrigin(st.records[id]) > CapsFor(cfg).maxAgeMs
       case Overflowed => false
       case ConfirmedIn(ids) =>
         exists batch, outcome :: Answered(cfg, st, op, batch, outcome) && ids == IdSet(batch) && id in ids
           && ConfirmsId(outcome, id)
       case RefusedWith(reason) =>
         exists batch, outcome :: Answered(cfg, st, op, batch, outcome) && id in IdSet(batch)
           && outcome.Failed? && outcome.reason == reason && Hopeless(reason)
       case GaveUp =>
         exists batch, outcome :: Answered(cfg, st, op, batch, outcome) && id in IdSet(batch)
           && st.records[id].attemptCount + 1 == cfg.maxAttempts && !ConfirmsId(outcome, id)
  }

  lemma FlushEntryEarned(cfg: QueueConfig, st: QueueState, op: Op, id: string)
    requires WithinLimits(cfg) && Inv(cfg, st) && op.FlushOp? && id in Fates(cfg, st, op)
    ensures EarnedByFlush(cfg, st, op, id, Fates(cfg, st, op)[id])
  {
    hide PruneStep, Selected, Due, Confirmed, Hopeless, PrunedFate, PruneFates, SettleFates, FlushStep,
      WithinLimits, AgeOrigin;
    var nowMs := op.nowMs;
    FlushFacts(cfg, st, op.upload, nowMs, op.random);
    if id in PruneFates(cfg, st.records, nowMs) {
      PruneEntry(cfg, st.records, nowMs, id);
      NoOverflowInFlush(cfg, st.records, nowMs, id);
      PruneSplits(cfg, st.records, nowMs);
      if Selected(cfg, st, nowMs).Some? {
        NotSettled(cfg, PruneStep(cfg, st.records, nowMs).0, Selected(cfg, st, nowMs).value.records,
          AnswerTo(op.upload, Selected(cfg, st, nowMs).value), id);
      }
    } else {
      var b := Selected(cfg, st, nowMs).value;
      var outcome := AnswerTo(op.upload, b);
      SettleEntry(cfg, PruneStep(cfg, st.records, nowMs).0, b.records, outcome, id);
      assert Answered(cfg, st, op, b.records, outcome);
    }
  }

  lemma NotSettled(cfg: QueueConfig, left: Records, batch: seq<QueuedEvent>, outcome: UploadOutcome, id: string)
    requires id !in left
    ensures id !in SettleFates(cfg, left, batch, outcome)
  {
  }

  lemma PruneEntry(cfg: QueueConfig, records: Records, nowMs: real, id: string)
    requires WellKeyed(records) && id in PruneFates(cfg, records, nowMs)
    ensures id in records && PruneFates(cfg, records, nowMs)[id] == PrunedFate(records[id], nowMs, CapsFor(cfg))
  {
    hide PruneStep, PrunedFate, DroppedIds;
  }

  lemma SettleEntry(cfg: QueueConfig, left: Records, batch: seq<QueuedEvent>, outcome: UploadOutcome, id: string)
    requires BatchFrom(batch, left) && id in SettleFates(cfg, left, batch, outcome)
    ensures id in left && id in IdSet(batch)
    ensures var confirmed := outcome.Uploaded?
      && (outcome.acceptedEventIds.None? || id in outcome.acceptedEventIds.value);
        var refused := outcome.Failed? && Hopeless(outcome.reason);
        SettleFates(cfg, left, batch, outcome)[id] ==
        (if confirmed then ConfirmedIn(IdSet(batch)) else if refused then RefusedWith(outcome.reason) else GaveUp)
        && (!confirmed && !refused ==> left[id].attemptCount + 1 >= cfg.maxAttempts)
  {
    hide Hopeless, Confirmed;
    BatchIds(batch, left);
    if outcome.Uploaded? { ConfirmedWithinBatch(batch, outcome.acceptedEventIds); }
  }

  /** A flush finds no more than the cap, so capacity drops only happen in enqueue. */
  lemma NoOverflowInFlush(cfg: QueueConfig, records: Records, nowMs: real, id: string)
    requires WellKeyed(records) && |records| <= cfg.maxEvents && id in PruneFates(cfg, records, nowMs)
    requires forall k :: k in records ==> records[k].attemptCount < cfg.maxAttempts
    ensures PruneFates(cfg, records, nowMs)[id] == AgedOut
    ensures nowMs - AgeOrigin(records[id]) > CapsFor(cfg).maxAgeMs
  {
    hide Prune, AgeOrigin;
    var listed := ListOf(records);
    ListOfLists(records);
    ListingMembers(listed, records);
    PruneStepIs(cfg, records, nowMs);
    var result := Prune(listed, nowMs, CapsFor(cfg));
    var d :| d in result.dropped && d.eventId == id;
    WithinCapacity(listed, nowMs, CapsFor(cfg));
    FaultsMeaning(listed, nowMs, CapsFor(cfg));
    var r :| r in listed && IdOf(r) == id && Fault(r, nowMs, CapsFor(cfg)) == Some(d.reason);
    assert r == records[id];
  }

  lemma WithinCapacity(records: seq<QueuedEvent>, nowMs: real, caps: Caps)
    requires DistinctIds(records) && |records| <= caps.maxEvents
    ensures Prune(records, nowMs, caps).dropped == Faults(records, nowMs, caps)
  {
    hide Fault, Precedes;
    SurvivorsMeaning(records, nowMs, caps);
    NoOverflow(Survivors(records, nowMs, caps), caps.maxEvents);
  }

  /** A capacity drop leaves the queue full. */
  lemma OverflowOnlyWhenFull(records: seq<QueuedEvent>, nowMs: real, caps: Caps, d: Dropped)
    requires DistinctIds(records) && d in Prune(records, nowMs, caps).dropped && d.reason == CapacityExceeded
    ensures |Prune(records, nowMs, caps).keep| == caps.maxEvents
  {
    hide Precedes, Fault, Overflow, Survivors, Faults, CapacityDrops;
    var s := Survivors(records, nowMs, caps);
    EvictsExactlyTheOverflow(records, nowMs, caps);
    FaultsMeaning(records, nowMs, caps);
    if d in Faults(records, nowMs, caps) {
      var r :| r in records && IdOf(r) == d.eventId && Fault(r, nowMs, caps) == Some(d.reason);
      FaultIsNotCapacity(r, nowMs, caps);
    }
  }

  /**
   * What each entry of an enqueue means: the record was too old, or the queue is now full of
   * records none of which is older.
   */
  ghost predicate EarnedByEnqueue(cfg: QueueConfig, st: QueueState, op: Op, id: string, fate: Fate)
    requires WellKeyed(st.records)
  {
    && Enqueues(cfg, op)
    && var put := Inserted(st.records, AcceptedEvent(cfg, op.submission), op.nowMs);
       var after := Step(cfg, st, op).records;
       && id in put
       && match fate
          case AgedOut => op.nowMs - AgeOrigin(put[id]) > CapsFor(cfg).maxAgeMs
          case Overflowed =>
            |after| == cfg.maxEvents && forall j :: j in after ==> AgeOrigin(put[id]) <= AgeOrigin(after[j])
          case _ => false
  }

  lemma EnqueueEntryEarned(cfg: QueueConfig, st: QueueState, op: Op, id: string)
    requires WithinLimits(cfg) && Inv(cfg, st) && op.EnqueueOp? && id in Fates(cfg, st, op)
    ensures EarnedByEnqueue(cfg, st, op, id, Fates(cfg, st, op)[id])
  {
    hide PruneStep, Refusal, Prune, AgeOrigin, AcceptedEvent, CapsFor, PruneFates, PrunedFate, Advance;
    var put := Inserted(st.records, AcceptedEvent(cfg, op.submission), op.nowMs);
    EnqueueFacts(cfg, st, op.submission, op.nowMs);
    PruneEntry(cfg, put, op.nowMs, id);
    PruneSplits(cfg, put, op.nowMs);
    PrunedForCause(cfg, put, op.nowMs, id);
    EntryReads(cfg, put, op.nowMs, id);
  }

  lemma EntryReads(cfg: QueueConfig, records: Records, nowMs: real, id: string)
    requires WithinLimits(cfg) && WellKeyed(records) && |records| <= cfg.maxEvents + 1
    requires forall k :: k in records ==> records[k].attemptCount < cfg.maxAttempts
    requires id in records && id !in PruneStep(cfg, records, nowMs).0
    ensures var fate := PrunedFate(records[id], nowMs, CapsFor(cfg));
            && (fate == AgedOut || fate == Overflowed)
            && (fate == AgedOut ==> nowMs - AgeOrigin(records[id]) > CapsFor(cfg).maxAgeMs)
            && (fate == Overflowed ==>
                  Fault(records[id], nowMs, CapsFor(cfg)).None? && |PruneStep(cfg, records, nowMs).0| == cfg.maxEvents)
  {
    hide Prune, AgeOrigin, DroppedIds, Precedes;
    if Fault(records[id], nowMs, CapsFor(cfg)).None? {
      var listed := ListOf(records);
      ListOfLists(records);
      PruneStepIs(cfg, records, nowMs);
      PrunedForCause(cfg, records, nowMs, id);
      PruneFacts(cfg, records, nowMs);
      var (left, result) := PruneStep(cfg, records, nowMs);
      var d :| d in result.dropped && d.eventId == id && d.reason == CapacityExceeded;
      OverflowOnlyWhenFull(listed, nowMs, CapsFor(cfg), d);
      ListingSize(result.keep, left);
    }
  }

  // ---- whole runs --------------------------------------------------------

  datatype Ledger = Ledger(accepted: set<string>, fates: map<string, Fate>)

  ghost function LedgerRun(cfg: QueueConfig, st: QueueState, l: Ledger, ops: seq<Op>): Ledger
    requires WellKeyed(st.records)
    decreases |ops|
  {
    if ops == [] then l
    else
      StepKeyed(cfg, st, ops[0]);
      LedgerRun(
        cfg, Step(cfg, st, ops[0]),
        Ledger(l.accepted + TakenIn(cfg, ops[0]), l.fates + Fates(cfg, st, ops[0])), ops[1..])
  }

  /** Ids are enqueued at most once, and none that the ledger has seen. */
  ghost predicate FreshIds(cfg: QueueConfig, seen: set<string>, ops: seq<Op>)
    decreases |ops|
  {
    ops != [] ==> TakenIn(cfg, ops[0]) !! seen && FreshIds(cfg, seen + TakenIn(cfg, ops[0]), ops[1..])
  }

  /** Pending and settled are disjoint, and together they are what was accepted. */
  ghost predicate Balanced(st: QueueState, l: Ledger) {
    SplitsInto(l.accepted, st.records, l.fates)
  }

  lemma SplitsGrow(
    accepted: set<string>, part: Records, fates: map<string, Fate>, taken: set<string>, after: Records,
      more: map<string, Fate>)
    requires SplitsInto(accepted, part, fates) && SplitsInto(part.Keys + taken, after, more) && taken !! accepted
    ensures SplitsInto(accepted + taken, after, fates + more)
    ensures fates.Keys !! more.Keys
  {
    forall id ensures id in fates ==> id !in more && id !in after {
      assert id in fates ==> id !in part.Keys + taken;
    }
  }

  lemma StepBalances(cfg: QueueConfig, st: QueueState, l: Ledger, op: Op)
    requires WithinLimits(cfg) && Inv(cfg, st) && Balanced(st, l) && TakenIn(cfg, op) !! l.accepted
    ensures WellKeyed(st.records)
    ensures Balanced(Step(cfg, st, op), Ledger(l.accepted + TakenIn(cfg, op), l.fates + Fates(cfg, st, op)))
    ensures l.fates.Keys !! Fates(cfg, st, op).Keys
  {
    hide WithinLimits, Step, Fates, TakenIn, SplitsInto;
    StepConserves(cfg, st, op);
    SplitsGrow(l.accepted, st.records, l.fates, TakenIn(cfg, op), Step(cfg, st, op).records, Fates(cfg, st, op));
  }

  lemma {:induction false} RunBalances(cfg: QueueConfig, st: QueueState, l: Ledger, ops: seq<Op>)
    requires WithinLimits(cfg) && Inv(cfg, st) && Balanced(st, l) && FreshIds(cfg, l.accepted, ops)
    ensures WellKeyed(st.records)
    ensures var m := LedgerRun(cfg, st, l, ops);
            && Balanced(Run(cfg, st, ops), m)
            && (forall id :: id in l.fates ==> id in m.fates && m.fates[id] == l.fates[id])
    decreases |ops|
  {
    hide WithinLimits, Step, Fates, TakenIn, Balanced;
    if ops != [] {
      StepInv(cfg, st, ops[0]);
      StepBalances(cfg, st, l, ops[0]);
      RunBalances(
        cfg, Step(cfg, st, ops[0]),
        Ledger(l.accepted + TakenIn(cfg, ops[0]), l.fates + Fates(cfg, st, ops[0])), ops[1..]);
    }
  }

  function AcceptedIds(cfg: QueueConfig, ops: seq<Op>): set<string> {
    if ops == [] then {} else TakenIn(cfg, ops[0]) + AcceptedIds(cfg, ops[1..])
  }

  lemma {:induction false} AcceptedByRun(cfg: QueueConfig, st: QueueState, l: Ledger, ops: seq<Op>)
    requires WellKeyed(st.records)
    ensures LedgerRun(cfg, st, l, ops).accepted == l.accepted + AcceptedIds(cfg, ops)
    decreases |ops|
  {
    hide Step, Fates, TakenIn;
    if ops != [] {
      StepKeyed(cfg, st, ops[0]);
      AcceptedByRun(
        cfg, Step(cfg, st, ops[0]),
        Ledger(l.accepted + TakenIn(cfg, ops[0]), l.fates + Fates(cfg, st, ops[0])), ops[1..]);
    }
  }

  // ---- every entry of a run has its cause --------------------------------

  ghost predicate Earned(cfg: QueueConfig, st: QueueState, op: Op, id: string, fate: Fate)
    requires WellKeyed(st.records)
  {
    EarnedByFlush(cfg, st, op, id, fate) || EarnedByEnqueue(cfg, st, op, id, fate)
  }

  /** The `k`th call of the run earned it, in the state that call found. */
  ghost predicate EarnedAt(cfg: QueueConfig, st: QueueState, ops: seq<Op>, k: nat, id: string, fate: Fate)
    requires WellKeyed(st.records) && k < |ops|
  {
    RunSplits(cfg, st, ops[..k], ops[k..]);
    Earned(cfg, Run(cfg, st, ops[..k]), ops[k], id, fate)
  }

  lemma StepEarns(cfg: QueueConfig, st: QueueState, op: Op, id: string)
    requires WithinLimits(cfg) && Inv(cfg, st) && id in Fates(cfg, st, op)
    ensures Earned(cfg, st, op, id, Fates(cfg, st, op)[id])
  {
    hide WithinLimits, Inv, EarnedByFlush, EarnedByEnqueue;
    match op
    case EnqueueOp(_, _) => EnqueueEntryEarned(cfg, st, op, id);
    case FlushOp(_, _, _) => FlushEntryEarned(cfg, st, op, id);
    case ReserveOp =>
  }

  lemma EarnedFirst(cfg: QueueConfig, st: QueueState, ops: seq<Op>, id: string, fate: Fate)
    requires WellKeyed(st.records) && ops != [] && Earned(cfg, st, ops[0], id, fate)
    ensures EarnedAt(cfg, st, ops, 0, id, fate)
  {
    hide Earned;
    assert ops[..0] == [];
  }

  lemma EarnedLater(cfg: QueueConfig, st: QueueState, ops: seq<Op>, k: nat, id: string, fate: Fate)
    requires WellKeyed(st.records) && k + 1 < |ops|
    requires WellKeyed(Step(cfg, st, ops[0]).records) && EarnedAt(cfg, Step(cfg, st, ops[0]), ops[1..], k, id, fate)
    ensures EarnedAt(cfg, st, ops, k + 1, id, fate)
  {
    hide Earned, Step;
    assert ops[..k + 1][0] == ops[0] && ops[..k + 1][1..] == ops[1..][..k] && ops[1..][k] == ops[k + 1];
    assert Run(cfg, st, ops[..k + 1]) == Run(cfg, Step(cfg, st, ops[0]), ops[1..][..k]);
  }

  lemma {:induction false} EntriesEarned(cfg: QueueConfig, st: QueueState, l: Ledger, ops: seq<Op>, id: string)
    requires WithinLimits(cfg) && Inv(cfg, st) && Balanced(st, l) && FreshIds(cfg, l.accepted, ops)
    requires WellKeyed(st.records) && id in LedgerRun(cfg, st, l, ops).fates && id !in l.fates
    ensures exists k :: 0 <= k < |ops| && EarnedAt(cfg, st, ops, k, id, LedgerRun(cfg, st, l, ops).fates[id])
    decreases |ops|
  {
    hide WithinLimits, Step, Fates, TakenIn, Balanced, Sound, EarnedAt, Earned;
    var next := Step(cfg, st, ops[0]);
    var m := Ledger(l.accepted + TakenIn(cfg, ops[0]), l.fates + Fates(cfg, st, ops[0]));
    var fate := LedgerRun(cfg, st, l, ops).fates[id];
    StepInv(cfg, st, ops[0]);
    StepBalances(cfg, st, l, ops[0]);
    RunBalances(cfg, next, m, ops[1..]);
    if id in Fates(cfg, st, ops[0]) {
      StepEarns(cfg, st, ops[0], id);
      assert m.fates[id] == Fates(cfg, st, ops[0])[id];
      EarnedFirst(cfg, st, ops, id, fate);
    } else {
      EntriesEarned(cfg, next, m, ops[1..], id);
      var k :| 0 <= k < |ops[1..]| && EarnedAt(cfg, next, ops[1..], k, id, LedgerRun(cfg, next, m, ops[1..]).fates[id]);
      EarnedLater(cfg, st, ops, k, id, fate);
    }
  }

  /**
   * On any run from an empty queue that enqueues distinct ids: each accepted event is either still
   * pending or has exactly one entry, entries are never revised, and each was earned by one call
   * of the run: confirmed by a batch that contained it, or dropped for its named cause.
   */
  lemma EveryEventAccountedFor(cfg: QueueConfig, ops: seq<Op>)
    requires WithinLimits(cfg) && FreshIds(cfg, {}, ops)
    ensures var st, l := Run(cfg, EMPTY_QUEUE, ops), LedgerRun(cfg, EMPTY_QUEUE, Ledger({}, map[]), ops);
            && l.accepted == AcceptedIds(cfg, ops)
            && l.accepted == st.records.Keys + l.fates.Keys
            && st.records.Keys !! l.fates.Keys
            && forall id :: id in l.fates ==>
                 exists k :: 0 <= k < |ops| && EarnedAt(cfg, EMPTY_QUEUE, ops, k, id, l.fates[id])
  {
    hide Run, LedgerRun, FreshIds, WithinLimits, AcceptedIds, EarnedAt;
    var start := Ledger({}, map[]);
    RunBalances(cfg, EMPTY_QUEUE, start, ops);
    AcceptedByRun(cfg, EMPTY_QUEUE, start, ops);
    var l := LedgerRun(cfg, EMPTY_QUEUE, start, ops);
    forall id | id in l.fates
      ensures exists k :: 0 <= k < |ops| && EarnedAt(cfg, EMPTY_QUEUE, ops, k, id, l.fates[id]) {
      EntriesEarned(cfg, EMPTY_QUEUE, start, ops, id);
    }
  }

  // ---- the reported count ------------------------------------------------

  ghost predicate NoRepeats(ids: seq<string>) {
    forall i, j :: 0 <= i < j < |ids| ==> ids[i] != ids[j]
  }

  lemma RestRepeats(ids: seq<string>)
    requires ids != [] && ids[0] !in ids[1..]
    ensures NoRepeats(ids[1..]) ==> NoRepeats(ids)
  {
    forall i, j | NoRepeats(ids[1..]) && 0 <= i < j < |ids| ensures ids[i] != ids[j] {
      assert ids[1..][j - 1] == ids[j];
      if i > 0 { assert ids[1..][i - 1] == ids[i]; }
    }
  }

  lemma {:induction false} SetOfSize(ids: seq<string>)
    ensures |SetOf(ids)| <= |ids|
    ensures |SetOf(ids)| == |ids| <==> NoRepeats(ids)
  {
    if ids == [] {
      assert SetOf(ids) == {};
    } else {
      var rest := ids[1..];
      SetOfSize(rest);
      assert ids == [ids[0]] + rest;
      assert SetOf(ids) == {ids[0]} + SetOf(rest);
      if NoRepeats(ids) {
        assert ids[0] !in SetOf(rest);
      } else if ids[0] !in rest {
        RestRepeats(ids);
      } else {
        assert {ids[0]} + SetOf(rest) == SetOf(rest);
      }
    }
  }

  /**
   * `uploadedCount` is never too low, and it is the number of records confirmed exactly if the
   * server repeated no id of the batch.
   */
  lemma UploadedCountExactly(batch: seq<QueuedEvent>, accepted: Option<seq<string>>)
    requires DistinctIds(batch)
    ensures var confirmed := set id | id in IdSet(batch) && (accepted.None? || id in accepted.value);
            && UploadedCount(batch, Uploaded(accepted)) >= |confirmed|
            && (UploadedCount(batch, Uploaded(accepted)) == |confirmed| <==>
                  accepted.None? || NoRepeats(Among(accepted.value, IdSet(batch))))
  {
    var ids := Confirmed(batch, accepted);
    ConfirmedWithinBatch(batch, accepted);
    assert SetOf(ids) == set id | id in IdSet(batch) && (accepted.None? || id in accepted.value);
    SetOfSize(ids);
    if accepted.None? { assert NoRepeats(ids); }
  }

  /** The count does go wrong: one record, named twice, is reported as two. */
  lemma UploadedCountOverCounts(r: QueuedEvent)
    ensures UploadedCount([r], Uploaded(Some([IdOf(r), IdOf(r)]))) == 2
  {
    var ids := [IdOf(r), IdOf(r)];
    assert r in [r];
    assert IdSet([r]) == {IdOf(r)};
    assert ids[1..] == [IdOf(r)] && ids[1..][1..] == [];
    assert Among(ids[1..], IdSet([r])) == [IdOf(r)];
  }
}
