/** Records of the outbound queue and their total order (packages/location-core/src/queue.ts). */
module QueueTypes {
  import opened Basics
  import opened Sorting
  import opened Strings

  /** `capturedAtMs` is the parse of `capturedAt`; `fix` is the rest, which no decision reads. */
  datatype Event = Event(
    eventId: string,
    deviceId: string,
    sequenceNumber: nat,
    capturedAt: string,
    capturedAtMs: Option<real>,
    fix: string
  )

  datatype Reason =
    | NetworkUnavailable | Timeout | RateLimited | Unauthenticated | Forbidden
    | PayloadTooLarge | ValidationFailed | AlreadyAccepted | ServerError | Unknown

  datatype Disposition = Retry | ShrinkBatch | DropBatch

  function RetryDisposition(reason: Reason): Disposition {
    match reason
    case PayloadTooLarge => ShrinkBatch
    case ValidationFailed => DropBatch
    case Forbidden => DropBatch
    case AlreadyAccepted => DropBatch
    case _ => Retry
  }

  /** The poison pills: trying again would only pin the head of the queue. */
  predicate Hopeless(reason: Reason) {
    reason == ValidationFailed || reason == Forbidden || reason == AlreadyAccepted
  }

  lemma DispositionsExactly(reason: Reason)
    ensures RetryDisposition(reason).DropBatch? <==> Hopeless(reason)
    ensures RetryDisposition(reason).ShrinkBatch? <==> reason == PayloadTooLarge
  {
  }

  datatype QueuedEvent = QueuedEvent(
    event: Event,
    queuedAtMs: real,
    attemptCount: nat,
    lastAttemptAtMs: Option<real>,
    lastFailureReason: Option<Reason>
  )

  datatype Meta = Meta(
    nextSequenceNumber: nat,
    nextAttemptAtMs: Option<real>,
    consecutiveFailures: nat,
    lastAttemptAtMs: Option<real>,
    lastFailureReason: Option<Reason>,
    batchSizeHint: Option<nat>
  )

  const DEFAULT_QUEUE_META := Meta(0, None, 0, None, None, None)

  function IdOf(record: QueuedEvent): string {
    record.event.eventId
  }

  function Ids(records: seq<QueuedEvent>): (ids: seq<string>)
    ensures |ids| == |records| && forall i :: 0 <= i < |ids| ==> ids[i] == IdOf(records[i])
  {
    if records == [] then [] else [IdOf(records[0])] + Ids(records[1..])
  }

  function Events(records: seq<QueuedEvent>): (events: seq<Event>)
    ensures |events| == |records| && forall i :: 0 <= i < |events| ==> events[i] == records[i].event
  {
    if records == [] then [] else [records[0].event] + Events(records[1..])
  }

  ghost predicate DistinctIds(records: seq<QueuedEvent>) {
    forall i, j :: 0 <= i < j < |records| ==> IdOf(records[i]) != IdOf(records[j])
  }

  function IdSet(records: seq<QueuedEvent>): set<string> {
    set r | r in records :: IdOf(r)
  }

  lemma {:induction false} IdSetSize(records: seq<QueuedEvent>)
    requires DistinctIds(records)
    ensures |IdSet(records)| == |records|
  {
    if records == [] {
      assert IdSet(records) == {};
    } else {
      var rest := records[1..];
      IdSetSize(rest);
      assert records == [records[0]] + rest;
      assert IdSet(records) == {IdOf(records[0])} + IdSet(rest);
      assert IdOf(records[0]) !in IdSet(rest);
    }
  }

  // ---- the order ---------------------------------------------------------

  /** `compareQueued(a, b) <= 0` */
  predicate Precedes(a: QueuedEvent, b: QueuedEvent) {
    if a.event.deviceId != b.event.deviceId then AtMost(a.event.deviceId, b.event.deviceId)
    else if a.event.sequenceNumber != b.event.sequenceNumber then a.event.sequenceNumber < b.event.sequenceNumber
    else if a.event.capturedAt != b.event.capturedAt then AtMost(a.event.capturedAt, b.event.capturedAt)
    else AtMost(a.event.eventId, b.event.eventId)
  }

  function OrderQueue(records: seq<QueuedEvent>): seq<QueuedEvent> {
    Sort(Precedes, records)
  }

  /** Total, transitive, and with ties only between records of one id. */
  lemma PrecedesIsOrder()
    ensures TotalPreorder(Precedes)
    ensures forall a, b :: Precedes(a, b) && Precedes(b, a) ==> IdOf(a) == IdOf(b)
  {
    AtMostIsOrder();
    forall a, b ensures Precedes(a, b) || Precedes(b, a) {}
    forall a, b, c | Precedes(a, b) && Precedes(b, c) ensures Precedes(a, c) {
      PrecedesTransitive(a, b, c);
    }
    forall a, b | Precedes(a, b) && Precedes(b, a) ensures IdOf(a) == IdOf(b) {}
  }

  lemma PrecedesTransitive(a: QueuedEvent, b: QueuedEvent, c: QueuedEvent)
    requires Precedes(a, b) && Precedes(b, c)
    ensures Precedes(a, c)
  {
    AtMostIsOrder();
    hide AtMost;
  }

  lemma DistinctIdsAntisymmetric(records: seq<QueuedEvent>)
    requires DistinctIds(records)
    ensures AntisymmetricOn(Precedes, records)
  {
    PrecedesIsOrder();
    forall a, b | a in records && b in records && Precedes(a, b) && Precedes(b, a) ensures a == b {
      var i :| 0 <= i < |records| && records[i] == a;
      var j :| 0 <= j < |records| && records[j] == b;
      if i != j { assert IdOf(records[i]) == IdOf(records[j]); }
    }
  }

  lemma {:induction false} CountOfDistinct(s: seq<QueuedEvent>, x: QueuedEvent)
    requires DistinctIds(s)
    ensures multiset(s)[x] == if x in s then 1 else 0
  {
    if s != [] {
      CountOfDistinct(s[1..], x);
      assert s == [s[0]] + s[1..];
    }
  }

  lemma TwiceCounted(t: seq<QueuedEvent>, i: nat, j: nat)
    requires i < j < |t| && t[i] == t[j]
    ensures multiset(t)[t[i]] >= 2
  {
    assert t == t[..i] + [t[i]] + t[i + 1..];
    assert t[j] == t[i + 1..][j - i - 1];
  }

  lemma SameIdSameRecord(s: seq<QueuedEvent>, x: QueuedEvent, y: QueuedEvent)
    requires DistinctIds(s) && x in s && y in s && IdOf(x) == IdOf(y)
    ensures x == y
  {
    var i :| 0 <= i < |s| && s[i] == x;
    var j :| 0 <= j < |s| && s[j] == y;
    assert i == j;
  }

  lemma DistinctPermuted(s: seq<QueuedEvent>, t: seq<QueuedEvent>)
    requires DistinctIds(s) && multiset(s) == multiset(t)
    ensures DistinctIds(t)
  {
    forall i, j | 0 <= i < j < |t| ensures IdOf(t[i]) != IdOf(t[j]) {
      assert t[i] in multiset(s) && t[j] in multiset(s);
      if IdOf(t[i]) == IdOf(t[j]) {
        SameIdSameRecord(s, t[i], t[j]);
        TwiceCounted(t, i, j);
        CountOfDistinct(s, t[i]);
      }
    }
  }

  /** Ordering does not depend on the order in which the records arrive. */
  lemma OrderIgnoresArrival(s: seq<QueuedEvent>, t: seq<QueuedEvent>)
    requires DistinctIds(s) && multiset(s) == multiset(t)
    ensures OrderQueue(s) == OrderQueue(t)
  {
    PrecedesIsOrder();
    DistinctIdsAntisymmetric(s);
    SortIgnoresOrder(Precedes, s, t);
  }

  lemma OrderOfOrdered(s: seq<QueuedEvent>)
    requires Sorted(Precedes, s) && DistinctIds(s)
    ensures OrderQueue(s) == s
  {
    PrecedesIsOrder();
    SortSorts(Precedes, s);
    SortPermutes(Precedes, s);
    DistinctIdsAntisymmetric(s);
    SortedUnique(Precedes, s, OrderQueue(s));
  }

  /** What follows the head has other ids, and comes after it if the records are in order. */
  lemma TailAfterHead(records: seq<QueuedEvent>)
    requires records != [] && DistinctIds(records)
    ensures DistinctIds(records[1..]) && (Sorted(Precedes, records) ==> Sorted(Precedes, records[1..]))
    ensures forall r :: r in records[1..] ==>
              IdOf(r) != IdOf(records[0]) && (Sorted(Precedes, records) ==> Precedes(records[0], r))
    ensures forall r :: r in records <==> r == records[0] || r in records[1..]
  {
    hide Precedes;
    forall r | r in records[1..]
      ensures IdOf(r) != IdOf(records[0]) && (Sorted(Precedes, records) ==> Precedes(records[0], r))
    {
      var j :| 0 <= j < |records| - 1 && records[1..][j] == r;
      assert records[j + 1] == r;
    }
  }

  lemma HeadBeforeRest(head: QueuedEvent, rest: seq<QueuedEvent>)
    requires DistinctIds(rest) && forall r :: r in rest ==> IdOf(r) != IdOf(head)
    ensures DistinctIds([head] + rest)
    ensures Sorted(Precedes, rest) && (forall r :: r in rest ==> Precedes(head, r)) ==> Sorted(Precedes, [head] + rest)
  {
    hide Precedes;
  }

  lemma OrderKeepsDistinct(s: seq<QueuedEvent>)
    requires DistinctIds(s)
    ensures DistinctIds(OrderQueue(s))
  {
    SortPermutes(Precedes, s);
    DistinctPermuted(s, OrderQueue(s));
  }
}

/** The record map, and its listing in queue order. */
module QueueListing {
  import opened Sorting
  import opened QueueTypes

  type Records = map<string, QueuedEvent>

  ghost predicate WellKeyed(m: Records) {
    forall k :: k in m ==> IdOf(m[k]) == k
  }

  /** Every record of the map once, in order. */
  ghost predicate IsListing(s: seq<QueuedEvent>, m: Records) {
    && Sorted(Precedes, s)
    && DistinctIds(s)
    && (forall i :: 0 <= i < |s| ==> IdOf(s[i]) in m && m[IdOf(s[i])] == s[i])
    && (forall k :: k in m ==> m[k] in s)
  }

  lemma ListingMembers(s: seq<QueuedEvent>, m: Records)
    requires IsListing(s, m) && WellKeyed(m)
    ensures forall x :: x in s <==> IdOf(x) in m && m[IdOf(x)] == x
  {
  }

  lemma ListingUnique(s: seq<QueuedEvent>, t: seq<QueuedEvent>, m: Records)
    requires IsListing(s, m) && IsListing(t, m) && WellKeyed(m)
    ensures s == t
  {
    forall x ensures multiset(s)[x] == multiset(t)[x] {
      CountOfDistinct(s, x);
      CountOfDistinct(t, x);
      ListingMembers(s, m);
      ListingMembers(t, m);
    }
    assert multiset(s) == multiset(t);
    DistinctIdsAntisymmetric(s);
    SortedUnique(Precedes, s, t);
  }

  lemma SortedListing(s: seq<QueuedEvent>, m: Records)
    requires DistinctIds(s) && (forall x :: x in s <==> IdOf(x) in m && m[IdOf(x)] == x)
    requires WellKeyed(m)
    ensures IsListing(OrderQueue(s), m)
  {
    PrecedesIsOrder();
    SortSorts(Precedes, s);
    SortPermutes(Precedes, s);
    OrderKeepsDistinct(s);
  }

  lemma {:induction false} ListingExists(m: Records)
    requires WellKeyed(m)
    ensures exists s :: IsListing(s, m)
    decreases |m|
  {
    hide Precedes;
    if m == map[] {
      assert IsListing([], m);
    } else {
      var k :| k in m;
      ListingExists(m - {k});
      var s :| IsListing(s, m - {k});
      var t := s + [m[k]];
      ListingMembers(s, m - {k});
      forall x ensures x in t <==> IdOf(x) in m && m[IdOf(x)] == x {
        assert x in t <==> x in s || x == m[k];
      }
      SortedListing(t, m);
    }
  }

  /** The records in queue order. */
  ghost function ListOf(m: Records): seq<QueuedEvent>
    requires WellKeyed(m)
  {
    ListingExists(m);
    var s :| IsListing(s, m);
    s
  }

  lemma ListOfLists(m: Records)
    requires WellKeyed(m)
    ensures IsListing(ListOf(m), m) && |ListOf(m)| == |m|
  {
    ListingExists(m);
    ListingSize(ListOf(m), m);
  }

  lemma ListingSize(s: seq<QueuedEvent>, m: Records)
    requires IsListing(s, m) && WellKeyed(m)
    ensures |s| == |m|
  {
    IdSetSize(s);
    assert IdSet(s) == m.Keys by {
      forall k | k in m ensures k in IdSet(s) { assert m[k] in s; }
    }
  }
}
