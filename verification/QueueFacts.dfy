/** What the queue's steps do to single records. */
module QueueFacts {
  import opened Basics
  import opened QueueTypes
  import opened QueueListing
  import opened QueueSelection
  import opened QueueRetention
  import opened QueueModel

  lemma {:induction false} PutAllKeyed(m: Records, records: seq<QueuedEvent>)
    requires WellKeyed(m)
    ensures WellKeyed(PutAll(m, records))
    decreases |records|
  {
    if records != [] { PutAllKeyed(m[IdOf(records[0]) := records[0]], records[1..]); }
  }

  lemma {:induction false} PutAllFacts(m: Records, records: seq<QueuedEvent>)
    requires DistinctIds(records)
    ensures PutAll(m, records).Keys == m.Keys + IdSet(records)
    ensures forall r :: r in records ==> IdOf(r) in PutAll(m, records) && PutAll(m, records)[IdOf(r)] == r
    ensures forall k :: k in m && k !in IdSet(records) ==> k in PutAll(m, records) && PutAll(m, records)[k] == m[k]
    decreases |records|
  {
    if records != [] {
      var rest := records[1..];
      PutAllFacts(m[IdOf(records[0]) := records[0]], rest);
      assert records == [records[0]] + rest;
      assert IdSet(records) == {IdOf(records[0])} + IdSet(rest);
      assert IdOf(records[0]) !in IdSet(rest);
    } else {
      assert IdSet(records) == {};
    }
  }

  /** The same records, split by whether they have an attempt left. */
  lemma {:induction false} SpentOrUnspent(records: seq<QueuedEvent>, maxAttempts: nat)
    requires DistinctIds(records)
    ensures forall r :: r in Spent(records, maxAttempts) <==> r in records && r.attemptCount >= maxAttempts
    ensures forall r :: r in Unspent(records, maxAttempts) <==> r in records && r.attemptCount < maxAttempts
    ensures DistinctIds(Unspent(records, maxAttempts))
  {
    if records != [] {
      SpentOrUnspent(records[1..], maxAttempts);
      assert forall r :: r in records <==> r == records[0] || r in records[1..];
      forall r | r in records[1..] ensures IdOf(r) != IdOf(records[0]) {
        var j :| 0 <= j < |records| - 1 && records[1..][j] == r;
      }
    }
  }

  lemma BumpedFacts(sent: seq<QueuedEvent>, nowMs: real, reason: Option<Reason>)
    requires DistinctIds(sent)
    ensures var bumped := BumpAll(sent, nowMs, reason);
            && DistinctIds(bumped) && IdSet(bumped) == IdSet(sent)
            && (forall r :: r in sent ==> Bump(r, nowMs, reason) in bumped)
            && (forall b :: b in bumped ==> exists r :: r in sent && b == Bump(r, nowMs, reason))
  {
    var bumped := BumpAll(sent, nowMs, reason);
    forall i | 0 <= i < |sent| ensures IdOf(bumped[i]) == IdOf(sent[i]) {}
    forall r | r in sent ensures Bump(r, nowMs, reason) in bumped {
      var i :| 0 <= i < |sent| && sent[i] == r;
      assert bumped[i] == Bump(r, nowMs, reason);
    }
    forall b | b in bumped ensures exists r :: r in sent && b == Bump(r, nowMs, reason) {
      var i :| 0 <= i < |bumped| && bumped[i] == b;
      assert sent[i] in sent;
    }
    SameIdSets(sent, bumped);
  }

  lemma SameIdSets(s: seq<QueuedEvent>, t: seq<QueuedEvent>)
    requires |s| == |t| && forall i :: 0 <= i < |s| ==> IdOf(s[i]) == IdOf(t[i])
    ensures IdSet(s) == IdSet(t)
  {
    forall k | k in IdSet(s) ensures k in IdSet(t) {
      var i :| 0 <= i < |s| && IdOf(s[i]) == k;
      assert t[i] in t;
    }
    forall k | k in IdSet(t) ensures k in IdSet(s) {
      var i :| 0 <= i < |t| && IdOf(t[i]) == k;
      assert s[i] in s;
    }
  }

  /** One record after its batch came back unconfirmed: gone if it has no attempt left, bumped otherwise. */
  ghost predicate Retained(cfg: QueueConfig, after: Records, r: QueuedEvent, nowMs: real, reason: Option<Reason>) {
    if r.attemptCount + 1 >= cfg.maxAttempts then IdOf(r) !in after
    else IdOf(r) in after && after[IdOf(r)] == Bump(r, nowMs, reason)
  }

  lemma RetainFacts(cfg: QueueConfig, records: Records, sent: seq<QueuedEvent>, nowMs: real, reason: Option<Reason>)
    requires DistinctIds(sent) && IdSet(sent) <= records.Keys
    ensures var after := RetainStep(cfg, records, sent, nowMs, reason);
            && after.Keys <= records.Keys
            && (forall r :: r in sent ==> Retained(cfg, after, r, nowMs, reason))
            && (forall k :: k in records && k !in IdSet(sent) ==> k in after && after[k] == records[k])
  {
    hide PutAll, Spent, Unspent, BumpAll;
    var bumped := BumpAll(sent, nowMs, reason);
    var spent, unspent := Spent(bumped, cfg.maxAttempts), Unspent(bumped, cfg.maxAttempts);
    BumpedFacts(sent, nowMs, reason);
    SpentOrUnspent(bumped, cfg.maxAttempts);
    PutAllFacts(records - IdSet(spent), unspent);
    var after := RetainStep(cfg, records, sent, nowMs, reason);
    assert IdSet(unspent) <= IdSet(bumped) && IdSet(spent) <= IdSet(bumped);
    forall r | r in sent ensures Retained(cfg, after, r, nowMs, reason) {
      var b := Bump(r, nowMs, reason);
      if b.attemptCount >= cfg.maxAttempts {
        assert b in spent;
        SpentStaysOut(bumped, spent, unspent, b, cfg.maxAttempts);
      } else {
        assert b in unspent;
      }
    }
  }

  lemma SpentStaysOut(bumped: seq<QueuedEvent>, spent: seq<QueuedEvent>, unspent: seq<QueuedEvent>, b: QueuedEvent,
    maxAttempts: nat)
    requires DistinctIds(bumped) && b in bumped && b.attemptCount >= maxAttempts
    requires forall r :: r in unspent ==> r in bumped && r.attemptCount < maxAttempts
    ensures IdOf(b) !in IdSet(unspent)
  {
    forall r | r in unspent ensures IdOf(r) != IdOf(b) {
      if IdOf(r) == IdOf(b) { SameIdSameRecord(bumped, r, b); }
    }
  }

  lemma RetainKeyed(cfg: QueueConfig, records: Records, sent: seq<QueuedEvent>, nowMs: real, reason: Option<Reason>)
    requires WellKeyed(records)
    ensures WellKeyed(RetainStep(cfg, records, sent, nowMs, reason))
  {
    var bumped := BumpAll(sent, nowMs, reason);
    PutAllKeyed(records - IdSet(Spent(bumped, cfg.maxAttempts)), Unspent(bumped, cfg.maxAttempts));
  }

  lemma SettledKeyed(cfg: QueueConfig, records: Records, batch: seq<QueuedEvent>, outcome: UploadOutcome, nowMs: real)
    requires WellKeyed(records)
    ensures WellKeyed(SettledRecords(cfg, records, batch, outcome, nowMs))
  {
    hide RetainStep, Confirmed;
    match outcome
    case Uploaded(accepted) =>
      var confirmed := SetOf(Confirmed(batch, accepted));
      RetainKeyed(cfg, records - confirmed, Excluding(batch, confirmed), nowMs, None);
    case Failed(reason, _) =>
      RetainKeyed(cfg, records, batch, nowMs, Some(reason));
  }

  /** Every step keeps records under their own ids. */
  lemma FlushKeyed(cfg: QueueConfig, st: QueueState, upload: Upload, nowMs: real, random: Num)
    requires WellKeyed(st.records)
    ensures WellKeyed(FlushStep(cfg, st, upload, nowMs, random).records)
  {
    hide PruneStep, Selected, SettledRecords, SettledMeta;
    if Due(MetaOf(st), nowMs) {
      PruneKeyed(cfg, st.records, nowMs);
      var selection := Selected(cfg, st, nowMs);
      if selection.Some? {
        SettledKeyed(cfg, PruneStep(cfg, st.records, nowMs).0, selection.value.records,
          AnswerTo(upload, selection.value), nowMs);
      }
    }
  }

  lemma PruneKeyed(cfg: QueueConfig, records: Records, nowMs: real)
    requires WellKeyed(records)
    ensures WellKeyed(PruneStep(cfg, records, nowMs).0)
  {
    hide Prune, DroppedIds;
  }

  // ---- retention over the stored records ---------------------------------

  /** A part of the records, with nothing changed. */
  ghost predicate PartOf(part: Records, whole: Records) {
    forall k :: k in part ==> k in whole && part[k] == whole[k]
  }

  lemma TakeAll(records: seq<QueuedEvent>, n: nat)
    requires |records| <= n
    ensures Take(records, n) == records
  {
  }

  lemma PruneStepIs(cfg: QueueConfig, records: Records, nowMs: real)
    requires WellKeyed(records) && |records| <= cfg.maxEvents + 1
    ensures var result := Prune(ListOf(records), nowMs, CapsFor(cfg));
            PruneStep(cfg, records, nowMs) == (records - DroppedIds(result.dropped), result)
  {
    hide Prune, DroppedIds;
    ListOfLists(records);
    TakeAll(ListOf(records), cfg.maxEvents + 1);
  }

  /** What retention leaves is listed by `keep`, is within every cap, and is otherwise untouched. */
  lemma PruneFacts(cfg: QueueConfig, records: Records, nowMs: real)
    requires WellKeyed(records) && |records| <= cfg.maxEvents + 1
    ensures var (left, result) := PruneStep(cfg, records, nowMs);
            && WellKeyed(left) && PartOf(left, records) && |left| <= cfg.maxEvents
            && IsListing(result.keep, left)
            && (forall k :: k in records ==> (k in left <==> k !in DroppedIds(result.dropped)))
            && (forall k :: k in left ==> Fault(left[k], nowMs, CapsFor(cfg)).None?)
  {
    hide Prune, DroppedIds, Precedes, Fault;
    var listed := ListOf(records);
    ListOfLists(records);
    ListingMembers(listed, records);
    PruneStepIs(cfg, records, nowMs);
    var (left, result) := PruneStep(cfg, records, nowMs);
    RetentionKeeps(listed, nowMs, CapsFor(cfg));
    forall r | r in listed ensures r in result.keep <==> IdOf(r) !in DroppedIds(result.dropped) {
      KeptOrDropped(listed, nowMs, CapsFor(cfg), r);
    }
    forall k | k in left ensures left[k] in result.keep && Fault(left[k], nowMs, CapsFor(cfg)).None? {
      assert records[k] in listed;
    }
    ListingSize(result.keep, left);
  }

  lemma {:induction false} RemovedIds(dropped: seq<Dropped>)
    ensures SetOf(IdsOf(dropped)) == DroppedIds(dropped) && |IdsOf(dropped)| == |dropped|
  {
    if dropped != [] {
      RemovedIds(dropped[1..]);
      assert dropped == [dropped[0]] + dropped[1..];
      assert SetOf(IdsOf(dropped)) == {dropped[0].eventId} + SetOf(IdsOf(dropped[1..]));
      assert DroppedIds(dropped) == {dropped[0].eventId} + DroppedIds(dropped[1..]);
    }
  }

  /** A record that retention removed had the fault, or it had none and nothing left is older. */
  lemma PrunedForCause(cfg: QueueConfig, records: Records, nowMs: real, k: string)
    requires WellKeyed(records) && |records| <= cfg.maxEvents + 1
    requires k in records && k !in PruneStep(cfg, records, nowMs).0
    ensures var (left, result) := PruneStep(cfg, records, nowMs);
            && (Fault(records[k], nowMs, CapsFor(cfg)).None? ==>
                  forall j :: j in left ==> AgeOrigin(records[k]) <= AgeOrigin(left[j]))
            && exists d :: d in result.dropped && d.eventId == k
                 && d.reason == if Fault(records[k], nowMs, CapsFor(cfg)).Some?
                   then Fault(records[k], nowMs, CapsFor(cfg)).value else CapacityExceeded
  {
    hide Prune, Precedes, Fault, AgeOrigin;
    var listed := ListOf(records);
    ListOfLists(records);
    PruneStepIs(cfg, records, nowMs);
    PruneFacts(cfg, records, nowMs);
    var (left, result) := PruneStep(cfg, records, nowMs);
    var d :| d in result.dropped && d.eventId == k;
    DropsHaveCause(listed, nowMs, CapsFor(cfg), d);
    var r :| r in listed && IdOf(r) == k
      && if d.reason == CapacityExceeded then
           Fault(r, nowMs, CapsFor(cfg)).None? && forall x :: x in result.keep ==> AgeOrigin(r) <= AgeOrigin(x)
         else Fault(r, nowMs, CapsFor(cfg)) == Some(d.reason);
    ListingMembers(listed, records);
    assert r == records[k];
    FaultIsNotCapacity(r, nowMs, CapsFor(cfg));
    forall j | j in left ensures left[j] in result.keep {}
  }

  lemma FaultIsNotCapacity(r: QueuedEvent, nowMs: real, caps: Caps)
    ensures Fault(r, nowMs, caps) != Some(CapacityExceeded)
  {
  }

  // ---- the submitted batch -----------------------------------------------

  /** The batch is a part of what retention left. */
  ghost predicate BatchFrom(batch: seq<QueuedEvent>, left: Records) {
    DistinctIds(batch) && forall r :: r in batch ==> IdOf(r) in left && left[IdOf(r)] == r
  }

  lemma BatchIds(batch: seq<QueuedEvent>, left: Records)
    requires BatchFrom(batch, left)
    ensures IdSet(batch) <= left.Keys
    ensures forall k :: k in IdSet(batch) ==> left[k] in batch
  {
  }

  /** A due flush submits nothing exactly if retention left nothing; otherwise a nonempty part of it. */
  lemma SelectedFacts(cfg: QueueConfig, st: QueueState, nowMs: real)
    requires WellKeyed(st.records) && |st.records| <= cfg.maxEvents + 1
    ensures var left, selection := PruneStep(cfg, st.records, nowMs).0, Selected(cfg, st, nowMs);
            && (selection.None? <==> left == map[])
            && (selection.Some? ==> |selection.value.records| >= 1 && BatchFrom(selection.value.records, left))
  {
    hide Prune, Precedes, Fault, DroppedIds, KeyOver, BatchLimit, OldestIndex, OfDevice;
    PruneFacts(cfg, st.records, nowMs);
    var (left, result) := PruneStep(cfg, st.records, nowMs);
    ListingMembers(result.keep, left);
    ListingSize(result.keep, left);
    if result.keep != [] {
      BatchMeaning(cfg.hash, result.keep, Finite(BatchSize(cfg, MetaOf(st)) as real));
    }
  }

  /** A record of the batch once the answer is in. */
  predicate Gone(cfg: QueueConfig, batch: seq<QueuedEvent>, r: QueuedEvent, outcome: UploadOutcome) {
    match outcome
    case Uploaded(accepted) => IdOf(r) in SetOf(Confirmed(batch, accepted)) || r.attemptCount + 1 >= cfg.maxAttempts
    case Failed(reason, _) => Hopeless(reason) || r.attemptCount + 1 >= cfg.maxAttempts
  }

  function FailureOf(outcome: UploadOutcome): Option<Reason> {
    if outcome.Failed? then Some(outcome.reason) else None
  }

  /**
   * No answer touches a record outside the batch; within it a record goes when confirmed, refused or
   * spent, and otherwise stays with exactly one more attempt.
   */
  lemma SettledFacts(cfg: QueueConfig, left: Records, batch: seq<QueuedEvent>, outcome: UploadOutcome, nowMs: real)
    requires WellKeyed(left) && BatchFrom(batch, left)
    ensures var after := SettledRecords(cfg, left, batch, outcome, nowMs);
            && after.Keys <= left.Keys
            && (forall k :: k in left && k !in IdSet(batch) ==> k in after && after[k] == left[k])
            && (forall r :: r in batch ==>
                  if Gone(cfg, batch, r, outcome) then IdOf(r) !in after
                  else IdOf(r) in after && after[IdOf(r)] == Bump(r, nowMs, FailureOf(outcome)))
  {
    hide RetainStep, Confirmed, SetOf, Bump, RetryDisposition;
    BatchIds(batch, left);
    match outcome
    case Uploaded(accepted) => ConfirmedFacts(cfg, left, batch, accepted, nowMs);
    case Failed(reason, _) =>
      DispositionsExactly(reason);
      if !Hopeless(reason) {
        RetainFacts(cfg, left, batch, nowMs, Some(reason));
      }
  }

  lemma {:induction false} AmongFacts(ids: seq<string>, batch: set<string>)
    ensures forall id :: id in Among(ids, batch) <==> id in ids && id in batch
  {
    if ids != [] {
      AmongFacts(ids[1..], batch);
      assert ids == [ids[0]] + ids[1..];
    }
  }

  /** Only ids of the batch are ever confirmed: all of them, or those the server named. */
  lemma ConfirmedWithinBatch(batch: seq<QueuedEvent>, accepted: Option<seq<string>>)
    ensures forall id :: id in Confirmed(batch, accepted) <==>
              id in IdSet(batch) && (accepted.None? || id in accepted.value)
  {
    if accepted.Some? {
      AmongFacts(accepted.value, IdSet(batch));
    } else {
      forall id ensures id in Confirmed(batch, accepted) <==> id in IdSet(batch) {
        if id in Ids(batch) {
          var i :| 0 <= i < |batch| && Ids(batch)[i] == id;
          assert batch[i] in batch;
        }
        if id in IdSet(batch) {
          var r :| r in batch && IdOf(r) == id;
          var i :| 0 <= i < |batch| && batch[i] == r;
          assert Ids(batch)[i] == id;
        }
      }
    }
  }

  lemma ConfirmedFacts(cfg: QueueConfig, left: Records, batch: seq<QueuedEvent>, accepted: Option<seq<string>>,
    nowMs: real)
    requires WellKeyed(left) && BatchFrom(batch, left)
    ensures var after := AfterSuccess(cfg, left, batch, accepted, nowMs);
            var confirmed := SetOf(Confirmed(batch, accepted));
            && after.Keys <= left.Keys
            && (forall k :: k in left && k !in IdSet(batch) ==> k in after && after[k] == left[k])
            && (forall r :: r in batch ==>
                  if IdOf(r) in confirmed || r.attemptCount + 1 >= cfg.maxAttempts then IdOf(r) !in after
                  else IdOf(r) in after && after[IdOf(r)] == Bump(r, nowMs, None))
  {
    hide RetainStep, Confirmed, Bump;
    var confirmed := SetOf(Confirmed(batch, accepted));
    ConfirmedWithinBatch(batch, accepted);
    var unconfirmed := Excluding(batch, confirmed);
    ExcludingKeeps(batch, confirmed);
    assert IdSet(unconfirmed) <= (left - confirmed).Keys;
    RetainFacts(cfg, left - confirmed, unconfirmed, nowMs, None);
  }
}
