/** Stable retries: a batch that failed for a passing cause is submitted again, identically. */
module QueueRetries {
  import opened Basics
  import opened Sorting
  import opened QueueTypes
  import opened QueueListing
  import opened QueueSelection
  import opened QueueRetention
  import opened QueueModel
  import opened QueueFacts
  import opened QueueRuns

  /** The same events waiting, whatever is known of earlier attempts. */
  ghost predicate SamePending(a: Records, b: Records) {
    a.Keys == b.Keys && forall k :: k in a ==> SameEvent(a[k], b[k])
  }

  function Relabel(s: seq<QueuedEvent>, m: Records): (t: seq<QueuedEvent>)
    requires forall r :: r in s ==> IdOf(r) in m
    ensures |t| == |s| && forall i :: 0 <= i < |s| ==> t[i] == m[IdOf(s[i])]
  {
    if s == [] then [] else [m[IdOf(s[0])]] + Relabel(s[1..], m)
  }

  lemma SameEventSameOrder(a: QueuedEvent, b: QueuedEvent, c: QueuedEvent, d: QueuedEvent)
    requires SameEvent(a, c) && SameEvent(b, d)
    ensures Precedes(a, b) == Precedes(c, d)
  {
  }

  lemma RelabelSorted(s: seq<QueuedEvent>, a: Records, b: Records)
    requires IsListing(s, a) && SamePending(a, b) && WellKeyed(b)
    ensures SameEvents(s, Relabel(s, b)) && Sorted(Precedes, Relabel(s, b)) && DistinctIds(Relabel(s, b))
  {
    hide Precedes;
    var t := Relabel(s, b);
    forall i | 0 <= i < |s| ensures SameEvent(s[i], t[i]) && IdOf(t[i]) == IdOf(s[i]) {
      assert a[IdOf(s[i])] == s[i];
    }
    forall i, j | 0 <= i < j < |t| ensures Precedes(t[i], t[j]) {
      SameEventSameOrder(s[i], s[j], t[i], t[j]);
    }
  }

  lemma RelabelCovers(s: seq<QueuedEvent>, a: Records, b: Records, k: string)
    requires IsListing(s, a) && SamePending(a, b) && WellKeyed(a) && k in b
    ensures b[k] in Relabel(s, b)
  {
    hide Precedes;
    assert a[k] in s;
    var i :| 0 <= i < |s| && s[i] == a[k];
    assert Relabel(s, b)[i] == b[k];
  }

  lemma RelabelLists(s: seq<QueuedEvent>, a: Records, b: Records)
    requires IsListing(s, a) && SamePending(a, b) && WellKeyed(a) && WellKeyed(b)
    ensures IsListing(Relabel(s, b), b)
  {
    hide Precedes, SameEvent, Relabel, DistinctIds, Sorted;
    RelabelSorted(s, a, b);
    var t := Relabel(s, b);
    forall k | k in b ensures b[k] in t { RelabelCovers(s, a, b, k); }
    forall i | 0 <= i < |t| ensures IdOf(t[i]) in b && b[IdOf(t[i])] == t[i] { assert t[i] == b[IdOf(s[i])]; }
  }

  /** Listings of the same pending events agree, record by record. */
  lemma ListingsAgree(a: Records, b: Records)
    requires WellKeyed(a) && WellKeyed(b) && SamePending(a, b)
    ensures SameEvents(ListOf(a), ListOf(b))
  {
    hide ListOf, SameEvents, WellKeyed;
    ListOfLists(a);
    ListOfLists(b);
    RelabelSorted(ListOf(a), a, b);
    RelabelLists(ListOf(a), a, b);
    hide IsListing, SamePending;
    ListingUnique(Relabel(ListOf(a), b), ListOf(b), b);
  }

  /** What is selected when retention drops nothing. */
  lemma SelectedWhole(cfg: QueueConfig, st: QueueState, nowMs: real)
    requires Inv(cfg, st)
    requires forall k :: k in st.records ==> nowMs - AgeOrigin(st.records[k]) <= CapsFor(cfg).maxAgeMs
    ensures st.records == map[] ==> Selected(cfg, st, nowMs).None?
    ensures st.records != map[] ==>
              && ListOf(st.records) != []
              && Selected(cfg, st, nowMs)
                 == Some(SelectFrom(cfg.hash, ListOf(st.records),
                   BatchLimit(Finite(BatchSize(cfg, MetaOf(st)) as real))))
  {
    hide Prune, Precedes, SelectFrom, BatchLimit, AgeOrigin, DroppedIds;
    var s := ListOf(st.records);
    ListOfLists(st.records);
    ListingMembers(s, st.records);
    PruneStepIs(cfg, st.records, nowMs);
    PruneKeepsAll(s, nowMs, CapsFor(cfg));
    OrderOfOrdered(s);
  }

  /** What is selected in general is what would be selected from what retention leaves. */
  lemma SelectedFromLeft(cfg: QueueConfig, st: QueueState, nowMs: real)
    requires Inv(cfg, st)
    ensures var left := PruneStep(cfg, st.records, nowMs).0;
            && WellKeyed(left)
            && (Selected(cfg, st, nowMs).Some? ==>
                  && ListOf(left) != []
                  && Selected(cfg, st, nowMs).value
                     == SelectFrom(cfg.hash, ListOf(left), BatchLimit(Finite(BatchSize(cfg, MetaOf(st)) as real))))
  {
    hide Prune, Precedes, SelectFrom, BatchLimit, DroppedIds, Fault;
    var (left, result) := PruneStep(cfg, st.records, nowMs);
    PruneFacts(cfg, st.records, nowMs);
    ListOfLists(left);
    ListingUnique(result.keep, ListOf(left), left);
    OrderOfOrdered(result.keep);
  }

  /** A flush at `nowMs` that uploads, fails for a passing cause, and uses up no record's attempts. */
  ghost predicate FailsForNow(cfg: QueueConfig, st: QueueState, upload: Upload, nowMs: real)
    requires WellKeyed(st.records)
  {
    var selection := Selected(cfg, st, nowMs);
    && Due(MetaOf(st), nowMs) && selection.Some?
    && AnswerTo(upload, selection.value).Failed?
    && !Hopeless(AnswerTo(upload, selection.value).reason)
    && AnswerTo(upload, selection.value).reason != PayloadTooLarge
    && forall r :: r in selection.value.records ==> r.attemptCount + 1 < cfg.maxAttempts
  }

  /** Such a failure leaves the same events pending, and the batch size alone. */
  lemma FailureKeepsPending(cfg: QueueConfig, st: QueueState, upload: Upload, nowMs: real, random: Num)
    requires Inv(cfg, st) && FailsForNow(cfg, st, upload, nowMs)
    ensures var after := FlushStep(cfg, st, upload, nowMs, random);
            && SamePending(PruneStep(cfg, st.records, nowMs).0, after.records)
            && BatchSize(cfg, MetaOf(after)) == BatchSize(cfg, MetaOf(st))
  {
    hide PruneStep, Selected, Due, FlushStep, Hopeless, Sound;
    FlushFacts(cfg, st, upload, nowMs, random);
    var left, after := PruneStep(cfg, st.records, nowMs).0, FlushStep(cfg, st, upload, nowMs, random);
    var batch := Selected(cfg, st, nowMs).value.records;
    BatchIds(batch, left);
    forall k | k in left ensures k in after.records && SameEvent(left[k], after.records[k]) {}
    FailureKeepsHint(cfg, st, upload, nowMs, random);
  }

  lemma FailureKeepsHint(cfg: QueueConfig, st: QueueState, upload: Upload, nowMs: real, random: Num)
    requires WellKeyed(st.records) && FailsForNow(cfg, st, upload, nowMs)
    ensures MetaOf(FlushStep(cfg, st, upload, nowMs, random)).batchSizeHint == MetaOf(st).batchSizeHint
  {
    hide PruneStep, Selected, SettledRecords, Wait, RetryDisposition, Hopeless;
    DispositionsExactly(AnswerTo(upload, Selected(cfg, st, nowMs).value).reason);
  }

  /**
   * After such a failure, any later state with the same pending events and batch size, at a time
   * when none has aged out, selects the identical events under the identical key.
   */
  lemma RetryIsIdentical(cfg: QueueConfig, st: QueueState, upload: Upload, nowMs: real, random: Num,
    later: QueueState, laterMs: real)
    requires Inv(cfg, st) && FailsForNow(cfg, st, upload, nowMs)
    requires Inv(cfg, later)
    requires later.records == FlushStep(cfg, st, upload, nowMs, random).records
    requires MetaOf(later).batchSizeHint == MetaOf(FlushStep(cfg, st, upload, nowMs, random)).batchSizeHint
    requires forall k :: k in later.records ==> laterMs - AgeOrigin(later.records[k]) <= CapsFor(cfg).maxAgeMs
    ensures var first, second := Selected(cfg, st, nowMs), Selected(cfg, later, laterMs);
            && second.Some?
            && second.value.events == first.value.events
            && second.value.deviceId == first.value.deviceId
            && second.value.idempotencyKey == first.value.idempotencyKey
  {
    hide PruneStep, Selected, FlushStep, SelectFrom, BatchLimit, AgeOrigin, Sound, FailsForNow, SamePending, SameEvents;
    assert Selected(cfg, st, nowMs).Some? by { FailureUploads(cfg, st, upload, nowMs); }
    var left := PruneStep(cfg, st.records, nowMs).0;
    SelectedFromLeft(cfg, st, nowMs);
    FailureKeepsPending(cfg, st, upload, nowMs, random);
    SelectedWhole(cfg, later, laterMs);
    ListingsAgree(left, later.records);
    NotEmptied(left, later.records);
    SelectFromAgrees(cfg.hash, ListOf(left), ListOf(later.records),
      BatchLimit(Finite(BatchSize(cfg, MetaOf(st)) as real)));
  }

  lemma FailureUploads(cfg: QueueConfig, st: QueueState, upload: Upload, nowMs: real)
    requires WellKeyed(st.records) && FailsForNow(cfg, st, upload, nowMs)
    ensures Selected(cfg, st, nowMs).Some?
  {
  }

  lemma NotEmptied(a: Records, b: Records)
    requires WellKeyed(a) && SamePending(a, b) && ListOf(a) != []
    ensures b != map[]
  {
    ListOfLists(a);
    assert IdOf(ListOf(a)[0]) in b;
  }

  /**
   * Calls that change neither the pending events nor the batch size: reservations, and flushes before the gate
   * opens.
   */
  ghost predicate Quiet(cfg: QueueConfig, st: QueueState, ops: seq<Op>)
    requires WellKeyed(st.records)
    decreases |ops|
  {
    ops != [] ==>
      && (ops[0].ReserveOp? || (ops[0].FlushOp? && !Due(MetaOf(st), ops[0].nowMs)))
      && (StepKeyed(cfg, st, ops[0]); Quiet(cfg, Step(cfg, st, ops[0]), ops[1..]))
  }

  lemma {:induction false} QuietKeeps(cfg: QueueConfig, st: QueueState, ops: seq<Op>)
    requires WellKeyed(st.records) && Quiet(cfg, st, ops)
    ensures Run(cfg, st, ops).records == st.records
    ensures MetaOf(Run(cfg, st, ops)).batchSizeHint == MetaOf(st).batchSizeHint
    decreases |ops|
  {
    hide Selected, PruneStep, SettleStep, EnqueueStep;
    if ops != [] {
      StepKeyed(cfg, st, ops[0]);
      QuietKeeps(cfg, Step(cfg, st, ops[0]), ops[1..]);
    }
  }

  /**
   * After a retryable failure that exhausts no record, with no enqueue and no age expiry since, the
   * next flush that is due submits the identical batch under the identical key.
   */
  lemma NextDueFlushRepeats(
    cfg: QueueConfig, st: QueueState, upload: Upload, nowMs: real, random: Num, between: seq<Op>, laterMs: real)
    requires WithinLimits(cfg) && Inv(cfg, st) && FailsForNow(cfg, st, upload, nowMs)
    requires WellKeyed(FlushStep(cfg, st, upload, nowMs, random).records)
    requires Quiet(cfg, FlushStep(cfg, st, upload, nowMs, random), between)
    requires forall k :: k in FlushStep(cfg, st, upload, nowMs, random).records ==>
               laterMs - AgeOrigin(FlushStep(cfg, st, upload, nowMs, random).records[k]) <= CapsFor(cfg).maxAgeMs
    ensures var later := Run(cfg, FlushStep(cfg, st, upload, nowMs, random), between);
            var first := Selected(cfg, st, nowMs);
            && WellKeyed(later.records) && Selected(cfg, later, laterMs).Some?
            && Selected(cfg, later, laterMs).value.events == first.value.events
            && Selected(cfg, later, laterMs).value.deviceId == first.value.deviceId
            && Selected(cfg, later, laterMs).value.idempotencyKey == first.value.idempotencyKey
  {
    hide PruneStep, Selected, FlushStep, AgeOrigin, Sound, Run, Quiet, FailsForNow, WithinLimits;
    var failed := FlushStep(cfg, st, upload, nowMs, random);
    FlushInv(cfg, st, upload, nowMs, random);
    QuietKeeps(cfg, failed, between);
    RunInv(cfg, failed, between);
    var later := Run(cfg, failed, between);
    RetryIsIdentical(cfg, st, upload, nowMs, random, later, laterMs);
  }
}
