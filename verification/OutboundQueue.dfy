/** The outbound queue over its storage (packages/location-core/src/queue.ts). */
module OutboundQueues {
  import opened Basics
  import opened RetryPolicies
  import opened QueueTypes
  import opened QueueListing
  import opened QueueSelection
  import opened QueueRetention
  import opened QueueModel
  import opened QueueFacts

  /** The values of a map, in no particular order. */
  method Values(m: Records) returns (records: seq<QueuedEvent>)
    requires WellKeyed(m)
    ensures DistinctIds(records) && forall x :: x in records <==> IdOf(x) in m && m[IdOf(x)] == x
  {
    records := [];
    var rest := m;
    while rest != map[]
      invariant DistinctIds(records)
      invariant forall k :: k in rest ==> k in m && rest[k] == m[k]
      invariant forall x :: x in records <==> IdOf(x) in m && IdOf(x) !in rest && m[IdOf(x)] == x
      decreases |rest|
    {
      var k :| k in rest;
      forall r | r in records ensures IdOf(r) != k {}
      records := records + [rest[k]];
      rest := rest - {k};
    }
  }

  class InMemoryQueueStorage {
    var records: Records
    var meta: Option<Meta>

    constructor ()
      ensures records == map[] && meta == None
    {
      records, meta := map[], None;
    }

    /** Up to `limit` records, in queue order. */
    method List(limit: Num) returns (listed: seq<QueuedEvent>)
      requires WellKeyed(records)
      ensures limit.Finite? && limit.value >= 0.0 ==> listed == Take(ListOf(records), limit.value.Floor)
      ensures !(limit.Finite? && limit.value >= 0.0) ==> listed == []
    {
      hide Precedes;
      var bounded := FiniteOr(Some(limit), 0.0).Floor;
      var values := Values(records);
      SortedListing(values, records);
      ListOfLists(records);
      ListingUnique(OrderQueue(values), ListOf(records), records);
      return Take(OrderQueue(values), if bounded < 0 then 0 else bounded);
    }

    /** Insert or replace by id. */
    method Put(added: seq<QueuedEvent>)
      modifies this`records
      ensures records == PutAll(old(records), added)
    {
      for k := 0 to |added|
        invariant PutAll(records, added[k..]) == PutAll(old(records), added)
      {
        records := records[IdOf(added[k]) := added[k]];
        assert added[k..][0] == added[k] && added[k..][1..] == added[k + 1..];
      }
    }

    method Remove(ids: seq<string>)
      modifies this`records
      ensures records == old(records) - SetOf(ids)
    {
      for k := 0 to |ids|
        invariant records == old(records) - SetOf(ids[..k])
      {
        assert SetOf(ids[..k + 1]) == SetOf(ids[..k]) + {ids[k]} by { assert ids[..k + 1] == ids[..k] + [ids[k]]; }
        records := records - {ids[k]};
      }
      assert ids[..|ids|] == ids;
    }

    method Count() returns (n: nat)
      ensures n == |records|
    {
      n := |records|;
    }

    method ReadMeta() returns (m: Option<Meta>)
      ensures m == meta
    {
      m := meta;
    }

    method WriteMeta(m: Meta)
      modifies this`meta
      ensures meta == Some(m)
    {
      meta := Some(m);
    }
  }

  lemma IdsAreIdSet(records: seq<QueuedEvent>)
    ensures SetOf(Ids(records)) == IdSet(records)
  {
    forall id | id in SetOf(Ids(records)) ensures id in IdSet(records) {
      var i :| 0 <= i < |records| && Ids(records)[i] == id;
      assert records[i] in records;
    }
    forall id | id in IdSet(records) ensures id in SetOf(Ids(records)) {
      var r :| r in records && IdOf(r) == id;
      var i :| 0 <= i < |records| && records[i] == r;
      assert Ids(records)[i] == id;
    }
  }

  class OutboundQueue {
    const storage: InMemoryQueueStorage
    const cfg: QueueConfig

    ghost predicate Valid()
      reads storage
    {
      WithinLimits(cfg) && WellKeyed(storage.records)
    }

    ghost function State(): QueueState
      reads storage
    {
      QueueState(storage.records, storage.meta)
    }

    constructor (storage: InMemoryQueueStorage, options: QueueOptions, hash: string -> string)
      requires WellKeyed(storage.records)
      ensures Valid() && this.storage == storage && cfg == Configure(options, hash)
    {
      ConfigureWithinLimits(options, hash);
      this.storage := storage;
      cfg := Configure(options, hash);
    }

    method ReadMetaOrDefault() returns (meta: Meta)
      ensures meta == MetaOf(State())
    {
      var stored := storage.ReadMeta();
      meta := if stored.Some? then stored.value else DEFAULT_QUEUE_META;
    }

    method ReserveSequenceNumber() returns (n: nat)
      requires Valid()
      modifies storage
      ensures Valid() && (State(), n) == ReserveStep(old(State()))
    {
      var meta := ReadMetaOrDefault();
      n := meta.nextSequenceNumber;
      storage.WriteMeta(meta.(nextSequenceNumber := n + 1));
    }

    method PruneStored(nowMs: real) returns (keep: seq<QueuedEvent>, droppedEventIds: seq<string>)
      requires Valid()
      modifies storage
      ensures Valid() && storage.meta == old(storage.meta)
      ensures storage.records == PruneStep(cfg, old(storage.records), nowMs).0
      ensures keep == PruneStep(cfg, old(storage.records), nowMs).1.keep
      ensures droppedEventIds == IdsOf(PruneStep(cfg, old(storage.records), nowMs).1.dropped)
    {
      hide Prune, CapsOf;
      CapsAreConfigured(cfg);
      var listed := storage.List(Finite((cfg.maxEvents + 1) as real));
      var result := PruneForRetention(listed, nowMs, RetentionFor(cfg));
      droppedEventIds := IdsOf(result.dropped);
      RemovedIds(result.dropped);
      if |droppedEventIds| > 0 {
        storage.Remove(droppedEventIds);
      } else {
        assert storage.records - DroppedIds(result.dropped) == storage.records;
      }
      keep := result.keep;
    }

    method Insert(event: Event, nowMs: real)
      requires Valid()
      modifies storage
      ensures Valid()
      ensures State() == QueueState(Inserted(old(storage.records), event, nowMs), Advance(old(storage.meta), event))
    {
      var record := QueuedEvent(event, nowMs, 0, None, None);
      storage.Put([record]);
      assert PutAll(old(storage.records), [record]) == old(storage.records)[event.eventId := record];
      var meta := ReadMetaOrDefault();
      if event.sequenceNumber + 1 > meta.nextSequenceNumber {
        storage.WriteMeta(meta.(nextSequenceNumber := event.sequenceNumber + 1));
      }
    }

    method Enqueue(s: Submission, nowMs: real) returns (r: EnqueueResult)
      requires Valid()
      modifies storage
      ensures Valid() && (State(), r) == EnqueueStep(cfg, old(State()), s, nowMs)
    {
      hide PruneStep, Advance, Inserted, WellFormed;
      if cfg.deviceId.Some? && s.deviceId != cfg.deviceId.value { r := Rejected(DeviceMismatch); return; }
      if !IsSequence(s.sequenceNumber) {
        r := Rejected(InvalidSequence);
        return;
      }
      if s.capturedAtMs.None? { r := Rejected(InvalidTimestamp); return; }
      Insert(Accepted(s), nowMs);
      var dropped: seq<string> := [];
      var count := storage.Count();
      if count > cfg.maxEvents {
        ghost var keep;
        keep, dropped := PruneStored(nowMs);
      }
      count := storage.Count();
      r := EnqueueResult(true, None, dropped, count);
    }

    method Rejected(reason: Rejection) returns (r: EnqueueResult)
      ensures r == EnqueueResult(false, Some(reason), [], |storage.records|)
    {
      var count := storage.Count();
      r := EnqueueResult(false, Some(reason), [], count);
    }

    /** Counts the attempt, and gives up on records that have used theirs up. */
    method Retain(records: seq<QueuedEvent>, nowMs: real, reason: Option<Reason>)
      requires Valid()
      modifies storage`records
      ensures storage.records == RetainStep(cfg, old(storage.records), records, nowMs, reason)
    {
      var bumped := BumpAll(records, nowMs, reason);
      var exhausted, retained := Spent(bumped, cfg.maxAttempts), Unspent(bumped, cfg.maxAttempts);
      IdsAreIdSet(exhausted);
      if |exhausted| > 0 {
        storage.Remove(Ids(exhausted));
      } else {
        assert storage.records - IdSet(exhausted) == storage.records;
      }
      if |retained| > 0 {
        storage.Put(retained);
      }
    }

    method OnSuccess(meta: Meta, batch: seq<QueuedEvent>, accepted: Option<seq<string>>, nowMs: real)
      returns (uploadedCount: nat)
      requires Valid()
      modifies storage
      ensures storage.records == AfterSuccess(cfg, old(storage.records), batch, accepted, nowMs)
      ensures storage.meta == Some(SettledMeta(cfg, meta, |batch|, Uploaded(accepted), nowMs, NonFinite))
      ensures uploadedCount == |Confirmed(batch, accepted)|
    {
      hide Confirmed, RetainStep, PutAll;
      var confirmed := Confirmed(batch, accepted);
      if |confirmed| > 0 {
        storage.Remove(confirmed);
      } else {
        assert storage.records - SetOf(confirmed) == storage.records;
      }
      var unconfirmed := Excluding(batch, SetOf(confirmed));
      if |unconfirmed| > 0 {
        Retain(unconfirmed, nowMs, None);
      } else {
        RetainNothing(cfg, storage.records, nowMs, None);
      }
      storage.WriteMeta(
        meta.(consecutiveFailures := 0, lastAttemptAtMs := Some(nowMs), lastFailureReason := None,
          batchSizeHint := None,
            nextAttemptAtMs := Some(nowMs + cfg.minUploadIntervalMs)));
      uploadedCount := |confirmed|;
    }

    static lemma RetainNothing(cfg: QueueConfig, records: Records, nowMs: real, reason: Option<Reason>)
      ensures RetainStep(cfg, records, [], nowMs, reason) == records
    {
      assert records - IdSet([]) == records;
    }

    method OnFailure(meta: Meta, batch: seq<QueuedEvent>, reason: Reason, retryAfterSeconds: Option<Num>, nowMs: real,
      random: Num)
      requires Valid()
      modifies storage
      ensures storage.records
        == SettledRecords(cfg, old(storage.records), batch, Failed(reason, retryAfterSeconds), nowMs)
      ensures storage.meta == Some(SettledMeta(cfg, meta, |batch|, Failed(reason, retryAfterSeconds), nowMs, random))
    {
      hide RetainStep, PutAll, FailureWait;
      var disposition := RetryDisposition(reason);
      var consecutiveFailures := 0;
      var batchSizeHint := meta.batchSizeHint;
      var wait := cfg.minUploadIntervalMs;
      if disposition == DropBatch {
        IdsAreIdSet(batch);
        storage.Remove(Ids(batch));
        batchSizeHint := None;
      } else {
        if disposition == ShrinkBatch { batchSizeHint := Some(ShrunkHint(|batch|)); }
        consecutiveFailures := meta.consecutiveFailures + 1;
        Retain(batch, nowMs, Some(reason));
        wait := FailureWait(cfg, consecutiveFailures, retryAfterSeconds, random);
      }
      storage.WriteMeta(
        meta.(consecutiveFailures := consecutiveFailures, batchSizeHint := batchSizeHint,
          lastAttemptAtMs := Some(nowMs),
            lastFailureReason := Some(reason), nextAttemptAtMs := Some(nowMs + wait)));
    }

    /** One upload attempt at most; the answer and the new state are those of the step. */
    method Flush(upload: Upload, nowMs: real, random: Num) returns (r: FlushResult)
      requires Valid()
      modifies storage
      ensures Valid()
      ensures State() == FlushStep(cfg, old(State()), upload, nowMs, random)
      ensures r == FlushAnswer(cfg, old(State()), upload, nowMs, random)
    {
      hide PruneStep, Selected, SettledRecords, SettledMeta, WellFormed, Confirmed;
      FlushKeyed(cfg, State(), upload, nowMs, random);
      var meta := ReadMetaOrDefault();
      if meta.nextAttemptAtMs.Some? && nowMs < meta.nextAttemptAtMs.value {
        var count := storage.Count();
        return FlushResult(0, count, meta.lastFailureReason, nowMs);
      }
      var selection := SelectStored(meta, nowMs);
      if selection.None? {
        storage.WriteMeta(IdleMeta(meta));
        var count := storage.Count();
        return FlushResult(0, count, None, nowMs);
      }
      var b := selection.value;
      var outcome := upload(b.events, UploadContext(b.deviceId, b.idempotencyKey));
      r := Settle(meta, b, outcome, nowMs, random);
    }

    method SelectStored(meta: Meta, nowMs: real) returns (selection: Option<BatchSelection>)
      requires Valid() && meta == MetaOf(State())
      modifies storage
      ensures Valid() && State() == QueueState(PruneStep(cfg, old(storage.records), nowMs).0, old(storage.meta))
      ensures selection == Selected(cfg, old(State()), nowMs)
    {
      hide PruneStep, Select, WellFormed;
      var keep, droppedEventIds := PruneStored(nowMs);
      selection := SelectBatch(cfg.hash, keep, Finite(BatchSize(cfg, meta) as real));
    }

    method Settle(meta: Meta, b: BatchSelection, outcome: UploadOutcome, nowMs: real, random: Num)
      returns (r: FlushResult)
      requires Valid()
      modifies storage
      ensures storage.records == SettledRecords(cfg, old(storage.records), b.records, outcome, nowMs)
      ensures storage.meta == Some(SettledMeta(cfg, meta, |b.records|, outcome, nowMs, random))
      ensures r == FlushResult(
                UploadedCount(b.records, outcome), |storage.records|,
                if outcome.Failed? then Some(outcome.reason) else None, nowMs)
    {
      hide RetainStep, Confirmed, AfterSuccess, WellFormed;
      var uploadedCount := 0;
      match outcome {
        case Uploaded(accepted) =>
          uploadedCount := OnSuccess(meta, b.records, accepted, nowMs);
        case Failed(reason, retryAfterSeconds) =>
          OnFailure(meta, b.records, reason, retryAfterSeconds, nowMs, random);
      }
      var count := storage.Count();
      r := FlushResult(uploadedCount, count, if outcome.Failed? then Some(outcome.reason) else None, nowMs);
    }
  }
}
