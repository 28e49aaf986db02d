/** Retention: attempts, then age, then capacity (packages/location-core/src/queue.ts). */
module QueueRetention {
  import opened Basics
  import opened Limits
  import opened Sorting
  import opened QueueTypes

  datatype DropReason = AgeExceeded | CapacityExceeded | MaxAttemptsExceeded

  datatype Dropped = Dropped(eventId: string, reason: DropReason)

  datatype PruneResult = PruneResult(keep: seq<QueuedEvent>, dropped: seq<Dropped>)

  datatype RetentionOptions = RetentionOptions(maxEvents: Option<Num>, maxAgeHours: Option<Num>,
    maxAttempts: Option<Num>)

  datatype Caps = Caps(maxEvents: nat, maxAgeMs: real, maxAttempts: nat)

  function ClampInt(n: int, low: nat, high: nat): (r: nat)
    requires low <= high
    ensures low <= r <= high
  {
    if n < low then low else if n > high then high else n
  }

  /** The caps in force: each option, held within the platform limit it may only lower. */
  function CapsOf(options: RetentionOptions): Caps {
    Caps(
      ClampInt(FiniteOr(options.maxEvents, MAX_QUEUED_EVENTS as real).Floor, 0, MAX_QUEUED_EVENTS),
      Min(MAX_QUEUE_AGE_HOURS, Max(0.0, FiniteOr(options.maxAgeHours, MAX_QUEUE_AGE_HOURS))) * 3600000.0,
      ClampInt(FiniteOr(options.maxAttempts, MAX_UPLOAD_ATTEMPTS as real).Floor, 1, MAX_UPLOAD_ATTEMPTS))
  }

  /** The option, if it is a usable number. */
  function Asked(option: Option<Num>): Option<real> {
    if option.Some? && option.value.Finite? then Some(option.value.value) else None
  }

  /** The option in whole numbers, as near as the range allows; the range's upper end is the default. */
  ghost predicate WholeFrom(n: nat, option: Option<Num>, range: Range) {
    Nearest(n as real, FiniteOr(option, range.max).Floor as real, range)
  }

  /** Options tighten the platform's caps, never widen them, and otherwise are taken as they are. */
  lemma CapsExactly(options: RetentionOptions)
    ensures var caps := CapsOf(options);
            && WholeFrom(caps.maxEvents, options.maxEvents, Range(0.0, MAX_QUEUED_EVENTS as real))
            && WholeFrom(caps.maxAttempts, options.maxAttempts, Range(1.0, MAX_UPLOAD_ATTEMPTS as real))
            && exists hours ::
                 && Nearest(hours, FiniteOr(options.maxAgeHours, MAX_QUEUE_AGE_HOURS), Range(0.0, MAX_QUEUE_AGE_HOURS))
                 && caps.maxAgeMs == hours * 3600000.0
  {
    hide Nearest;
    WholeIsNearest(options.maxEvents, 0, MAX_QUEUED_EVENTS);
    WholeIsNearest(options.maxAttempts, 1, MAX_UPLOAD_ATTEMPTS);
    ClampIsNearest(FiniteOr(options.maxAgeHours, MAX_QUEUE_AGE_HOURS), Range(0.0, MAX_QUEUE_AGE_HOURS));
  }

  lemma WholeIsNearest(option: Option<Num>, low: nat, high: nat)
    requires low <= high
    ensures WholeFrom(ClampInt(FiniteOr(option, high as real).Floor, low, high), option,
              Range(low as real, high as real))
  {
    var n := FiniteOr(option, high as real).Floor;
    ClampIsNearest(n as real, Range(low as real, high as real));
    assert ClampInto(Finite(n as real), Range(low as real, high as real)) == ClampInt(n, low, high) as real;
  }

  lemma CapsOnlyTighten(options: RetentionOptions)
    ensures var caps := CapsOf(options);
            var count, age := Asked(options.maxEvents), Asked(options.maxAgeHours);
            var attempts := Asked(options.maxAttempts);
            && caps.maxEvents <= MAX_QUEUED_EVENTS && caps.maxAgeMs <= MAX_QUEUE_AGE_HOURS * 3600000.0
            && 1 <= caps.maxAttempts <= MAX_UPLOAD_ATTEMPTS
            && (count.Some? && count.value >= 0.0 ==> caps.maxEvents as real <= count.value)
            && (age.Some? && age.value >= 0.0 ==> caps.maxAgeMs <= age.value * 3600000.0)
            && (attempts.Some? && attempts.value >= 1.0 ==> caps.maxAttempts as real <= attempts.value)
  {
  }

  function AgeOrigin(r: QueuedEvent): real {
    if r.event.capturedAtMs.Some? then r.event.capturedAtMs.value else r.queuedAtMs
  }

  predicate OlderFirst(a: QueuedEvent, b: QueuedEvent) {
    AgeOrigin(a) <= AgeOrigin(b)
  }

  /** Why a record goes before capacity is looked at, if it does. */
  function Fault(r: QueuedEvent, nowMs: real, caps: Caps): Option<DropReason> {
    if r.attemptCount >= caps.maxAttempts then Some(MaxAttemptsExceeded)
    else if nowMs - AgeOrigin(r) > caps.maxAgeMs then Some(AgeExceeded)
    else None
  }

  function Survivors(records: seq<QueuedEvent>, nowMs: real, caps: Caps): seq<QueuedEvent> {
    if records == [] then []
    else (if Fault(records[0], nowMs, caps).None? then [records[0]] else []) + Survivors(records[1..], nowMs, caps)
  }

  function Faults(records: seq<QueuedEvent>, nowMs: real, caps: Caps): seq<Dropped> {
    if records == [] then []
    else
      var fault := Fault(records[0], nowMs, caps);
      (if fault.Some? then [Dropped(IdOf(records[0]), fault.value)] else []) + Faults(records[1..], nowMs, caps)
  }

  function Excluding(records: seq<QueuedEvent>, ids: set<string>): (kept: seq<QueuedEvent>)
    ensures forall r :: r in kept <==> r in records && IdOf(r) !in ids
    ensures |kept| <= |records|
  {
    if records == [] then []
    else
      assert forall r :: r in records <==> r == records[0] || r in records[1..];
      (if IdOf(records[0]) in ids then [] else [records[0]]) + Excluding(records[1..], ids)
  }

  function CapacityDrops(victims: seq<QueuedEvent>): seq<Dropped> {
    if victims == [] then [] else [Dropped(IdOf(victims[0]), CapacityExceeded)] + CapacityDrops(victims[1..])
  }

  /** The oldest survivors, one for each that is over capacity. */
  function Overflow(survivors: seq<QueuedEvent>, maxEvents: nat): seq<QueuedEvent> {
    if |survivors| <= maxEvents then []
    else
      SortPermutes(OlderFirst, survivors);
      Sort(OlderFirst, survivors)[..|survivors| - maxEvents]
  }

  function Prune(records: seq<QueuedEvent>, nowMs: real, caps: Caps): PruneResult {
    var survivors := Survivors(records, nowMs, caps);
    var victims := Overflow(survivors, caps.maxEvents);
    PruneResult(Excluding(survivors, IdSet(victims)), Faults(records, nowMs, caps) + CapacityDrops(victims))
  }

  // ---- the loops compute it ----------------------------------------------

  lemma {:induction false} SurvivorsAppend(records: seq<QueuedEvent>, k: nat, nowMs: real, caps: Caps)
    requires k < |records|
    ensures var fault := Fault(records[k], nowMs, caps);
            && Survivors(records[..k + 1], nowMs, caps)
               == Survivors(records[..k], nowMs, caps) + (if fault.None? then [records[k]] else [])
            && Faults(records[..k + 1], nowMs, caps)
               == Faults(records[..k], nowMs, caps)
                 + (if fault.Some? then [Dropped(IdOf(records[k]), fault.value)] else [])
  {
    hide Fault;
    if k == 0 {
      assert records[..1] == [records[0]];
    } else {
      SurvivorsAppend(records[1..], k - 1, nowMs, caps);
      assert records[1..][..k] == records[..k + 1][1..];
      assert records[1..][..k - 1] == records[..k][1..];
    }
  }

  lemma {:induction false} CapacityDropsAppend(victims: seq<QueuedEvent>, k: nat)
    requires k < |victims|
    ensures CapacityDrops(victims[..k + 1])
      == CapacityDrops(victims[..k]) + [Dropped(IdOf(victims[k]), CapacityExceeded)]
    ensures IdSet(victims[..k + 1]) == IdSet(victims[..k]) + {IdOf(victims[k])}
  {
    assert victims[..k + 1] == victims[..k] + [victims[k]];
    if k == 0 {
      assert victims[..1] == [victims[0]];
    } else {
      CapacityDropsAppend(victims[1..], k - 1);
      assert victims[1..][..k] == victims[..k + 1][1..];
      assert victims[1..][..k - 1] == victims[..k][1..];
    }
  }

  method Examine(records: seq<QueuedEvent>, nowMs: real, caps: Caps)
    returns (survivors: seq<QueuedEvent>, dropped: seq<Dropped>)
    ensures survivors == Survivors(records, nowMs, caps) && dropped == Faults(records, nowMs, caps)
  {
    survivors, dropped := [], [];
    for k := 0 to |records|
      invariant survivors == Survivors(records[..k], nowMs, caps) && dropped == Faults(records[..k], nowMs, caps)
    {
      var record := records[k];
      SurvivorsAppend(records, k, nowMs, caps);
      if record.attemptCount >= caps.maxAttempts {
        dropped := dropped + [Dropped(IdOf(record), MaxAttemptsExceeded)];
        continue;
      }
      if nowMs - AgeOrigin(record) > caps.maxAgeMs {
        dropped := dropped + [Dropped(IdOf(record), AgeExceeded)];
        continue;
      }
      survivors := survivors + [record];
    }
    assert records[..|records|] == records;
  }

  method EvictOldest(survivors: seq<QueuedEvent>, maxEvents: nat) returns (evicted: set<string>, drops: seq<Dropped>)
    requires |survivors| > maxEvents
    ensures evicted == IdSet(Overflow(survivors, maxEvents)) && drops == CapacityDrops(Overflow(survivors, maxEvents))
  {
    SortPermutes(OlderFirst, survivors);
    var byAge := Sort(OlderFirst, survivors);
    var overflow := |survivors| - maxEvents;
    ghost var victims := Overflow(survivors, maxEvents);
    evicted, drops := {}, [];
    assert IdSet(victims[..0]) == {};
    for k := 0 to overflow
      invariant evicted == IdSet(victims[..k]) && drops == CapacityDrops(victims[..k])
    {
      CapacityDropsAppend(victims, k);
      evicted := evicted + {IdOf(byAge[k])};
      drops := drops + [Dropped(IdOf(byAge[k]), CapacityExceeded)];
    }
    assert victims[..overflow] == victims;
  }

  method PruneForRetention(records: seq<QueuedEvent>, nowMs: real, options: RetentionOptions)
    returns (result: PruneResult)
    ensures result == Prune(records, nowMs, CapsOf(options))
  {
    hide CapsOf, Survivors, Faults, Overflow;
    var caps := CapsOf(options);
    var survivors, dropped := Examine(records, nowMs, caps);
    if |survivors| > caps.maxEvents {
      var evicted, drops := EvictOldest(survivors, caps.maxEvents);
      return PruneResult(Excluding(survivors, evicted), dropped + drops);
    }
    NoOverflow(survivors, caps.maxEvents);
    return PruneResult(survivors, dropped);
  }

  lemma NoOverflow(survivors: seq<QueuedEvent>, maxEvents: nat)
    requires |survivors| <= maxEvents
    ensures Overflow(survivors, maxEvents) == []
    ensures Excluding(survivors, IdSet([])) == survivors
    ensures CapacityDrops([]) == []
  {
    ExcludingNothing(survivors);
  }

  lemma {:induction false} ExcludingNothing(records: seq<QueuedEvent>)
    ensures Excluding(records, IdSet([])) == records
  {
    if records != [] {
      ExcludingNothing(records[1..]);
      assert records == [records[0]] + records[1..];
    }
  }

  // ---- what is kept and what is dropped ----------------------------------

  lemma {:induction false} SurvivorsMeaning(records: seq<QueuedEvent>, nowMs: real, caps: Caps)
    requires DistinctIds(records)
    ensures var s := Survivors(records, nowMs, caps);
            && (forall r :: r in s <==> r in records && Fault(r, nowMs, caps).None?)
            && DistinctIds(s) && (Sorted(Precedes, records) ==> Sorted(Precedes, s))
            && |s| + |Faults(records, nowMs, caps)| == |records|
  {
    hide Precedes, Fault, DistinctIds, Sorted;
    if records == [] {
      NothingInOrder();
    } else {
      TailAfterHead(records);
      SurvivorsMeaning(records[1..], nowMs, caps);
      var rest := Survivors(records[1..], nowMs, caps);
      HeadBeforeRest(records[0], rest);
      var kept := Fault(records[0], nowMs, caps).None?;
      assert Survivors(records, nowMs, caps) == if kept then [records[0]] + rest else rest;
    }
  }

  lemma NothingInOrder()
    ensures DistinctIds([]) && Sorted(Precedes, [])
  {
  }

  lemma {:induction false} FaultsMeaning(records: seq<QueuedEvent>, nowMs: real, caps: Caps)
    ensures forall d :: d in Faults(records, nowMs, caps) <==>
              exists r :: r in records && IdOf(r) == d.eventId && Fault(r, nowMs, caps) == Some(d.reason)
  {
    hide Fault;
    if records != [] {
      FaultsMeaning(records[1..], nowMs, caps);
      assert forall r :: r in records <==> r == records[0] || r in records[1..];
    }
  }

  lemma {:induction false} CapacityDropsMeaning(victims: seq<QueuedEvent>)
    ensures forall d :: d in CapacityDrops(victims) <==> d.reason == CapacityExceeded && d.eventId in IdSet(victims)
    ensures |CapacityDrops(victims)| == |victims|
  {
    if victims != [] {
      CapacityDropsMeaning(victims[1..]);
      assert victims == [victims[0]] + victims[1..];
      assert IdSet(victims) == {IdOf(victims[0])} + IdSet(victims[1..]);
    }
  }

  lemma OlderFirstIsTotal()
    ensures TotalPreorder(OlderFirst)
  {
  }

  /** The victims are the oldest survivors, exactly as many as there are too many. */
  lemma OverflowMeaning(survivors: seq<QueuedEvent>, maxEvents: nat)
    requires DistinctIds(survivors)
    ensures var v := Overflow(survivors, maxEvents);
            && |v| == (if |survivors| > maxEvents then |survivors| - maxEvents else 0)
            && DistinctIds(v) && (forall r :: r in v ==> r in survivors)
            && (forall x, y :: x in v && y in survivors && y !in v ==> AgeOrigin(x) <= AgeOrigin(y))
  {
    if |survivors| > maxEvents {
      var byAge := Sort(OlderFirst, survivors);
      OlderFirstIsTotal();
      SortPermutes(OlderFirst, survivors);
      SortSorts(OlderFirst, survivors);
      DistinctPermuted(survivors, byAge);
      PrefixOldest(byAge, |survivors| - maxEvents);
    }
  }

  lemma PrefixOldest(byAge: seq<QueuedEvent>, n: nat)
    requires Sorted(OlderFirst, byAge) && n <= |byAge|
    ensures forall x, y :: x in byAge[..n] && y in byAge && y !in byAge[..n] ==> AgeOrigin(x) <= AgeOrigin(y)
  {
    hide AgeOrigin;
    forall x, y | x in byAge[..n] && y in byAge && y !in byAge[..n] ensures OlderFirst(x, y) {
      var i :| 0 <= i < n && byAge[i] == x;
      var j :| 0 <= j < |byAge| && byAge[j] == y;
      assert forall k :: 0 <= k < n ==> byAge[..n][k] == byAge[k];
    }
  }

  lemma {:induction false} ExcludingKeeps(records: seq<QueuedEvent>, ids: set<string>)
    requires DistinctIds(records)
    ensures DistinctIds(Excluding(records, ids))
    ensures Sorted(Precedes, records) ==> Sorted(Precedes, Excluding(records, ids))
  {
    hide Precedes, DistinctIds, Sorted;
    if records == [] {
      NothingInOrder();
    } else {
      TailAfterHead(records);
      ExcludingKeeps(records[1..], ids);
      var rest := Excluding(records[1..], ids);
      HeadBeforeRest(records[0], rest);
      assert Excluding(records, ids) == if IdOf(records[0]) in ids then rest else [records[0]] + rest;
    }
  }

  lemma {:induction false} ExcludingSize(records: seq<QueuedEvent>, victims: seq<QueuedEvent>)
    requires DistinctIds(records) && DistinctIds(victims) && forall r :: r in victims ==> r in records
    ensures |Excluding(records, IdSet(victims))| + |victims| == |records|
  {
    var kept := Excluding(records, IdSet(victims));
    ExcludingKeeps(records, IdSet(victims));
    IdSetSize(records);
    IdSetSize(victims);
    IdSetSize(kept);
    forall k | k in IdSet(records) ensures k in IdSet(kept) + IdSet(victims) {
      var r :| r in records && IdOf(r) == k;
      if k !in IdSet(victims) { assert r in kept; }
    }
    assert IdSet(records) == IdSet(kept) + IdSet(victims);
    assert IdSet(kept) !! IdSet(victims);
  }

  function DroppedIds(dropped: seq<Dropped>): set<string> {
    set d | d in dropped :: d.eventId
  }

  /** What is kept meets every cap and keeps its order, and nothing is unaccounted for. */
  lemma RetentionKeeps(records: seq<QueuedEvent>, nowMs: real, caps: Caps)
    requires DistinctIds(records)
    ensures var p := Prune(records, nowMs, caps);
            && |p.keep| + |p.dropped| == |records| && |p.keep| <= caps.maxEvents
            && DistinctIds(p.keep) && (Sorted(Precedes, records) ==> Sorted(Precedes, p.keep))
            && (forall r :: r in p.keep ==> r in records && Fault(r, nowMs, caps).None?)
  {
    hide Precedes, Fault, Overflow, Survivors, Faults, CapacityDrops;
    var s := Survivors(records, nowMs, caps);
    var victims := Overflow(s, caps.maxEvents);
    SurvivorsMeaning(records, nowMs, caps);
    OverflowMeaning(s, caps.maxEvents);
    CapacityDropsMeaning(victims);
    ExcludingKeeps(s, IdSet(victims));
    ExcludingSize(s, victims);
  }

  /** Each record is kept or dropped, never both. */
  lemma KeptOrDropped(records: seq<QueuedEvent>, nowMs: real, caps: Caps, r: QueuedEvent)
    requires DistinctIds(records) && r in records
    ensures var p := Prune(records, nowMs, caps); r in p.keep <==> IdOf(r) !in DroppedIds(p.dropped)
  {
    hide Precedes, Fault, Overflow, Survivors, Faults, CapacityDrops, DistinctIds;
    var p, s := Prune(records, nowMs, caps), Survivors(records, nowMs, caps);
    var victims := Overflow(s, caps.maxEvents);
    SurvivorsMeaning(records, nowMs, caps);
    FaultsMeaning(records, nowMs, caps);
    OverflowMeaning(s, caps.maxEvents);
    CapacityDropsMeaning(victims);
    if r !in s {
      assert Dropped(IdOf(r), Fault(r, nowMs, caps).value) in p.dropped;
    } else if IdOf(r) in IdSet(victims) {
      assert Dropped(IdOf(r), CapacityExceeded) in p.dropped;
    } else if IdOf(r) in DroppedIds(p.dropped) {
      var d :| d in p.dropped && d.eventId == IdOf(r);
      if d in Faults(records, nowMs, caps) {
        var o :| o in records && IdOf(o) == d.eventId && Fault(o, nowMs, caps) == Some(d.reason);
        SameIdSameRecord(records, o, r);
      }
    }
  }

  /** A record of that id had that fault; or it had none, and nothing kept is older. */
  ghost predicate DropCaused(records: seq<QueuedEvent>, nowMs: real, caps: Caps, d: Dropped) {
    exists r :: r in records && IdOf(r) == d.eventId
      && if d.reason == CapacityExceeded then
           Fault(r, nowMs, caps).None? && forall k :: k in Prune(records, nowMs, caps).keep ==>
             AgeOrigin(r) <= AgeOrigin(k)
         else Fault(r, nowMs, caps) == Some(d.reason)
  }

  /** Every drop has its cause: a fault of the record, or capacity while nothing newer was let go. */
  lemma DropsHaveCause(records: seq<QueuedEvent>, nowMs: real, caps: Caps, d: Dropped)
    requires DistinctIds(records) && d in Prune(records, nowMs, caps).dropped
    ensures DropCaused(records, nowMs, caps, d)
  {
    hide Precedes, Overflow, Survivors, Faults, CapacityDrops, DistinctIds;
    var s := Survivors(records, nowMs, caps);
    var victims := Overflow(s, caps.maxEvents);
    SurvivorsMeaning(records, nowMs, caps);
    FaultsMeaning(records, nowMs, caps);
    OverflowMeaning(s, caps.maxEvents);
    CapacityDropsMeaning(victims);
    if d !in Faults(records, nowMs, caps) {
      var r :| r in victims && IdOf(r) == d.eventId;
      assert r in records;
    }
  }

  /** When the record's position was taken, or else when it was queued. */
  predicate TakenAt(r: QueuedEvent, atMs: real) {
    r.event.capturedAtMs == Some(atMs) || (r.event.capturedAtMs.None? && r.queuedAtMs == atMs)
  }

  /**
   * Why each record goes: for its attempts exactly if they are used up, for its age exactly if
   * they are not and it is too old, and for capacity only if it is neither and the rest is full
   * of records no older.
   */
  lemma DropReasonsExactly(records: seq<QueuedEvent>, nowMs: real, caps: Caps, r: QueuedEvent, atMs: real)
    requires DistinctIds(records) && r in records && TakenAt(r, atMs)
    ensures var p := Prune(records, nowMs, caps);
            var spent, aged := r.attemptCount >= caps.maxAttempts, nowMs - atMs > caps.maxAgeMs;
            && (Dropped(IdOf(r), MaxAttemptsExceeded) in p.dropped <==> spent)
            && (Dropped(IdOf(r), AgeExceeded) in p.dropped <==> !spent && aged)
            && (Dropped(IdOf(r), CapacityExceeded) in p.dropped <==> !spent && !aged && r !in p.keep)
            && (r !in p.keep && !spent && !aged ==>
                  |p.keep| == caps.maxEvents
                  && forall k, kAtMs :: k in p.keep && TakenAt(k, kAtMs) ==> atMs <= kAtMs)
  {
    hide Precedes, Overflow, Survivors, Faults, CapacityDrops, DistinctIds;
    var p, s := Prune(records, nowMs, caps), Survivors(records, nowMs, caps);
    var victims := Overflow(s, caps.maxEvents);
    SurvivorsMeaning(records, nowMs, caps);
    FaultsMeaning(records, nowMs, caps);
    OverflowMeaning(s, caps.maxEvents);
    CapacityDropsMeaning(victims);
    KeptOrDropped(records, nowMs, caps, r);
    RetentionKeeps(records, nowMs, caps);
    EvictsExactlyTheOverflow(records, nowMs, caps);
    forall o | o in records && IdOf(o) == IdOf(r) ensures o == r { SameIdSameRecord(records, o, r); }
  }

  /** Exactly the overflow is evicted for capacity. */
  lemma EvictsExactlyTheOverflow(records: seq<QueuedEvent>, nowMs: real, caps: Caps)
    requires DistinctIds(records)
    ensures var p := Prune(records, nowMs, caps);
            var unfaulted := |Survivors(records, nowMs, caps)|;
            && |p.keep| == (if unfaulted > caps.maxEvents then caps.maxEvents else unfaulted)
            && multiset(p.dropped) == multiset(Faults(records, nowMs, caps))
              + multiset(CapacityDrops(Overflow(Survivors(records, nowMs, caps), caps.maxEvents)))
            && |CapacityDrops(Overflow(Survivors(records, nowMs, caps), caps.maxEvents))| == unfaulted - |p.keep|
  {
    hide Precedes, Fault, Overflow, Survivors, Faults, CapacityDrops;
    var s := Survivors(records, nowMs, caps);
    var victims := Overflow(s, caps.maxEvents);
    SurvivorsMeaning(records, nowMs, caps);
    OverflowMeaning(s, caps.maxEvents);
    CapacityDropsMeaning(victims);
    ExcludingSize(s, victims);
  }

  /**
   * For distinct ids, kept and dropped partition the input; what is kept meets every cap, no
   * victim of capacity is newer than anything kept, and exactly the overflow is evicted.
   */
  lemma RetentionPartitions(records: seq<QueuedEvent>, nowMs: real, caps: Caps)
    requires DistinctIds(records)
    ensures var p := Prune(records, nowMs, caps);
            && |p.keep| + |p.dropped| == |records| && |p.keep| <= caps.maxEvents && DistinctIds(p.keep)
            && (forall r :: r in p.keep ==> r in records && Fault(r, nowMs, caps).None?)
            && (forall r :: r in records ==> (r in p.keep <==> IdOf(r) !in DroppedIds(p.dropped)))
            && (forall d :: d in p.dropped ==> DropCaused(records, nowMs, caps, d))
  {
    hide Prune, Fault, DroppedIds;
    RetentionKeeps(records, nowMs, caps);
    forall r | r in records
      ensures r in Prune(records, nowMs, caps).keep <==> IdOf(r) !in DroppedIds(Prune(records, nowMs, caps).dropped) {
      KeptOrDropped(records, nowMs, caps, r);
    }
    forall d | d in Prune(records, nowMs, caps).dropped ensures DropCaused(records, nowMs, caps, d) {
      DropsHaveCause(records, nowMs, caps, d);
    }
  }

  lemma {:induction false} AllSurvive(records: seq<QueuedEvent>, nowMs: real, caps: Caps)
    requires forall r :: r in records ==> Fault(r, nowMs, caps).None?
    ensures Survivors(records, nowMs, caps) == records && Faults(records, nowMs, caps) == []
  {
    if records != [] {
      assert records == [records[0]] + records[1..];
      AllSurvive(records[1..], nowMs, caps);
    }
  }

  /** Records within every cap are all kept. */
  lemma PruneKeepsAll(records: seq<QueuedEvent>, nowMs: real, caps: Caps)
    requires |records| <= caps.maxEvents && forall r :: r in records ==> Fault(r, nowMs, caps).None?
    ensures Prune(records, nowMs, caps) == PruneResult(records, [])
  {
    AllSurvive(records, nowMs, caps);
    NoOverflow(records, caps.maxEvents);
  }

  /** Pruning again at the same time drops nothing. */
  lemma PruneIsIdempotent(records: seq<QueuedEvent>, nowMs: real, caps: Caps)
    requires DistinctIds(records)
    ensures Prune(Prune(records, nowMs, caps).keep, nowMs, caps) == PruneResult(Prune(records, nowMs, caps).keep, [])
  {
    hide Prune;
    RetentionKeeps(records, nowMs, caps);
    PruneKeepsAll(Prune(records, nowMs, caps).keep, nowMs, caps);
  }

  /**
   * Whatever the options, what is kept is within the platform's limits; and it is within the
   * options where they ask for less.
   */
  lemma KeptWithinPlatform(records: seq<QueuedEvent>, nowMs: real, options: RetentionOptions)
    requires DistinctIds(records)
    ensures var keep := Prune(records, nowMs, CapsOf(options)).keep;
            var count, age, attempts := Asked(options.maxEvents), Asked(options.maxAgeHours),
              Asked(options.maxAttempts);
            && |keep| <= MAX_QUEUED_EVENTS && (count.Some? && count.value >= 0.0 ==> |keep| as real <= count.value)
            && forall r :: r in keep ==>
                 && nowMs - AgeOrigin(r) <= MAX_QUEUE_AGE_HOURS * 3600000.0
                 && (age.Some? && age.value >= 0.0 ==> nowMs - AgeOrigin(r) <= age.value * 3600000.0)
                 && r.attemptCount < MAX_UPLOAD_ATTEMPTS
                 && (attempts.Some? && attempts.value >= 1.0 ==> r.attemptCount as real < attempts.value)
  {
    hide Prune, CapsOf, AgeOrigin, Precedes;
    CapsOnlyTighten(options);
    RetentionKeeps(records, nowMs, CapsOf(options));
  }
}
