/** A queue opened over records already stored, possibly under wider options, settles into its own limits. */
module QueueReopened {
  import opened Basics
  import opened QueueTypes
  import opened QueueListing
  import opened QueueSelection
  import opened QueueRetention
  import opened QueueModel
  import opened QueueFacts
  import opened QueueRuns

  /** The stored records over the cap. */
  function Excess(cfg: QueueConfig, m: Records): nat {
    if |m| > cfg.maxEvents then |m| - cfg.maxEvents else 0
  }

  /** Every stored number has been issued. */
  ghost predicate Sequenced(st: QueueState) {
    forall k :: k in st.records ==> st.records[k].event.sequenceNumber < MetaOf(st).nextSequenceNumber
  }

  lemma ListedFacts(cfg: QueueConfig, records: Records)
    requires WellKeyed(records)
    ensures var listed := Take(ListOf(records), cfg.maxEvents + 1);
            && DistinctIds(listed) && (forall r :: r in listed ==> IdOf(r) in records && records[IdOf(r)] == r)
            && |listed| == if |records| <= cfg.maxEvents + 1 then |records| else cfg.maxEvents + 1
  {
    hide Precedes;
    ListOfLists(records);
    var all := ListOf(records);
    var listed := Take(all, cfg.maxEvents + 1);
    assert forall i :: 0 <= i < |listed| ==> listed[i] == all[i];
  }

  /**
   * Retention over any store: what it returns is stored, unspent and untouched; and a store over the
   * cap always loses a record, although retention sees one more than the cap at most.
   */
  lemma PruneFromAny(cfg: QueueConfig, records: Records, nowMs: real)
    requires WellKeyed(records)
    ensures var (left, result) := PruneStep(cfg, records, nowMs);
            && WellKeyed(left) && PartOf(left, records) && DistinctIds(result.keep)
            && (forall r :: r in result.keep ==>
                  IdOf(r) in left && left[IdOf(r)] == r && r.attemptCount < cfg.maxAttempts)
            && |left| <= |records| && (|records| > cfg.maxEvents ==> |left| < |records|)
  {
    hide Prune, Precedes, Take, ListOf, AgeOrigin;
    var listed := Take(ListOf(records), cfg.maxEvents + 1);
    var (left, result) := PruneStep(cfg, records, nowMs);
    ListedFacts(cfg, records);
    RetentionKeeps(listed, nowMs, CapsFor(cfg));
    forall r | r in result.keep ensures IdOf(r) in left {
      KeptOrDropped(listed, nowMs, CapsFor(cfg), r);
    }
    SubsetSize(left.Keys, records.Keys);
    if |records| > cfg.maxEvents {
      var d := result.dropped[0];
      assert d in result.dropped;
      DropsHaveCause(listed, nowMs, CapsFor(cfg), d);
      assert d.eventId in records && d.eventId !in left;
      SubsetSize(left.Keys, records.Keys - {d.eventId});
    }
  }

  /** From any store, a flush never submits a record whose attempts are used up. */
  lemma SpentNeverSubmitted(cfg: QueueConfig, st: QueueState, nowMs: real)
    requires WellKeyed(st.records) && Selected(cfg, st, nowMs).Some?
    ensures var batch := Selected(cfg, st, nowMs).value.records;
            && BatchFrom(batch, PruneStep(cfg, st.records, nowMs).0)
            && forall r :: r in batch ==> r.attemptCount < cfg.maxAttempts
  {
    hide Prune, Precedes, DroppedIds, KeyOver, BatchLimit, Select;
    PruneFromAny(cfg, st.records, nowMs);
    SelectionNonempty(cfg.hash, PruneStep(cfg, st.records, nowMs).1.keep, Finite(BatchSize(cfg, MetaOf(st)) as real));
    BatchMeaning(cfg.hash, PruneStep(cfg, st.records, nowMs).1.keep, Finite(BatchSize(cfg, MetaOf(st)) as real));
  }

  lemma SelectionNonempty(hash: string -> string, records: seq<QueuedEvent>, size: Num)
    requires Select(hash, records, size).Some?
    ensures records != []
  {
  }

  /** From any store a due flush only removes records, and leaves events as they were. */
  lemma FlushFromAny(cfg: QueueConfig, st: QueueState, upload: Upload, nowMs: real, random: Num)
    requires WellKeyed(st.records) && Due(MetaOf(st), nowMs)
    ensures var left, after := PruneStep(cfg, st.records, nowMs).0, FlushStep(cfg, st, upload, nowMs, random).records;
            && after.Keys <= left.Keys && |after| <= |left|
            && forall k :: k in after ==> k in st.records && SameEvent(after[k], st.records[k])
  {
    hide PruneStep, Selected, SettledRecords, SettledMeta, Gone, Due;
    PruneFromAny(cfg, st.records, nowMs);
    var left, selection := PruneStep(cfg, st.records, nowMs).0, Selected(cfg, st, nowMs);
    if selection.Some? {
      SpentNeverSubmitted(cfg, st, nowMs);
      var batch := selection.value.records;
      BatchIds(batch, left);
      SettledFacts(cfg, left, batch, AnswerTo(upload, selection.value), nowMs);
    }
    SubsetSize(FlushStep(cfg, st, upload, nowMs, random).records.Keys, left.Keys);
  }

  /** Within the cap, a due flush leaves every limit met, whatever was stored. */
  lemma FlushSettles(cfg: QueueConfig, st: QueueState, upload: Upload, nowMs: real, random: Num)
    requires WellKeyed(st.records) && Sequenced(st) && |st.records| <= cfg.maxEvents && Due(MetaOf(st), nowMs)
    ensures Inv(cfg, FlushStep(cfg, st, upload, nowMs, random))
  {
    hide PruneStep, Selected, FlushStep, Due, AgeOrigin;
    FlushFacts(cfg, st, upload, nowMs, random);
    FlushFromAny(cfg, st, upload, nowMs, random);
    FlushKeepsSequence(cfg, st, upload, nowMs, random);
    PruneFacts(cfg, st.records, nowMs);
    var left, after := PruneStep(cfg, st.records, nowMs).0, FlushStep(cfg, st, upload, nowMs, random).records;
    forall k | k in after ensures after[k].attemptCount < cfg.maxAttempts {
      if Selected(cfg, st, nowMs).Some? && k in IdSet(Selected(cfg, st, nowMs).value.records) {
        BatchIds(Selected(cfg, st, nowMs).value.records, left);
        NotGone(cfg, Selected(cfg, st, nowMs).value.records, left[k], AnswerTo(upload, Selected(cfg, st, nowMs).value));
      }
    }
    SubsetSize(left.Keys, st.records.Keys);
  }

  lemma NotGone(cfg: QueueConfig, batch: seq<QueuedEvent>, r: QueuedEvent, outcome: UploadOutcome)
    ensures !Gone(cfg, batch, r, outcome) ==> r.attemptCount + 1 < cfg.maxAttempts
  {
    hide Confirmed, SetOf, Hopeless;
  }

  /** The excess never grows, and a due flush lowers it, or with none left meets every limit. */
  lemma StepFromAny(cfg: QueueConfig, st: QueueState, op: Op)
    requires WellKeyed(st.records) && Sequenced(st)
    ensures var after := Step(cfg, st, op);
            && WellKeyed(after.records) && Sequenced(after) && Excess(cfg, after.records) <= Excess(cfg, st.records)
            && (op.FlushOp? && Due(MetaOf(st), op.nowMs) ==>
                  if Excess(cfg, st.records) > 0 then Excess(cfg, after.records) < Excess(cfg, st.records)
                  else Inv(cfg, after))
  {
    hide EnqueueStep, FlushStep, PruneStep, Due, Inv;
    StepKeyed(cfg, st, op);
    match op
    case EnqueueOp(s, nowMs) => EnqueueFromAny(cfg, st, s, nowMs);
    case FlushOp(upload, nowMs, random) =>
      if Due(MetaOf(st), nowMs) {
        PruneFromAny(cfg, st.records, nowMs);
        FlushFromAny(cfg, st, upload, nowMs, random);
        FlushKeepsSequence(cfg, st, upload, nowMs, random);
        if Excess(cfg, st.records) == 0 { FlushSettles(cfg, st, upload, nowMs, random); }
      } else {
        EarlyFlush(cfg, st, upload, nowMs, random);
      }
    case ReserveOp =>
  }

  lemma EarlyFlush(cfg: QueueConfig, st: QueueState, upload: Upload, nowMs: real, random: Num)
    requires WellKeyed(st.records) && !Due(MetaOf(st), nowMs)
    ensures FlushStep(cfg, st, upload, nowMs, random) == st
  {
    hide Due, Selected, PruneStep;
  }

  lemma EnqueueFromAny(cfg: QueueConfig, st: QueueState, s: Submission, nowMs: real)
    requires WellKeyed(st.records) && Sequenced(st)
    ensures var after := EnqueueStep(cfg, st, s, nowMs).0;
            Sequenced(after) && Excess(cfg, after.records) <= Excess(cfg, st.records)
  {
    hide PruneStep, Refusal;
    if Refusal(cfg, s).None? {
      var put := Inserted(st.records, AcceptedEvent(cfg, s), nowMs);
      InsertedSize(st.records, AcceptedEvent(cfg, s), nowMs);
      PruneFromAny(cfg, put, nowMs);
    }
  }

  /**
   * A queue opened over any store meets all its limits after one due flush more than there are
   * records over the cap, whatever is enqueued and answered meanwhile, and keeps them from then on.
   */
  lemma {:induction false} ReopenedSettles(cfg: QueueConfig, st: QueueState, ops: seq<Op>)
    requires WithinLimits(cfg) && WellKeyed(st.records) && Sequenced(st)
    ensures WellKeyed(Run(cfg, st, ops).records)
    ensures DueFlushes(cfg, st, ops) > Excess(cfg, st.records) ==> Inv(cfg, Run(cfg, st, ops))
    decreases |ops|
  {
    hide WithinLimits, Step, Due, Inv, Sequenced;
    if ops != [] {
      var next := Step(cfg, st, ops[0]);
      StepFromAny(cfg, st, ops[0]);
      ReopenedSettles(cfg, next, ops[1..]);
      if Inv(cfg, next) { RunInv(cfg, next, ops[1..]); }
    }
  }
}
