/** Batch selection and the idempotency key (packages/location-core/src/queue.ts). */
module QueueSelection {
  import opened Basics
  import opened Limits
  import opened Sorting
  import opened Strings
  import opened QueueTypes

  // ---- idempotency key ---------------------------------------------------

  function Decimal(n: nat): string {
    (if n < 10 then "" else Decimal(n / 10)) + ["0123456789"[n % 10]]
  }

  /** One event's contribution to the hashed material. */
  function Stamp(event: Event): string {
    "|" + event.eventId + ":" + Decimal(event.sequenceNumber)
  }

  function Stamps(events: seq<Event>): string {
    if events == [] then "" else Stamp(events[0]) + Stamps(events[1..])
  }

  function FirstSequence(events: seq<Event>): string {
    if events == [] then "-1" else Decimal(events[0].sequenceNumber)
  }

  function LastSequence(events: seq<Event>): string {
    if events == [] then "-1" else Decimal(events[|events| - 1].sequenceNumber)
  }

  function KeyOver(hash: string -> string, deviceId: string, events: seq<Event>): string {
    deviceId + ":" + FirstSequence(events) + "-" + LastSequence(events) + ":" + Decimal(|events|) + ":"
    + hash(deviceId + "|" + Decimal(|events|) + Stamps(events))
  }

  lemma {:induction false} StampsAppend(events: seq<Event>, k: nat)
    requires k < |events|
    ensures Stamps(events[..k + 1]) == Stamps(events[..k]) + Stamp(events[k])
  {
    if k == 0 {
      assert events[..1] == [events[0]];
    } else {
      StampsAppend(events[1..], k - 1);
      assert events[1..][..k] == events[..k + 1][1..];
      assert events[1..][..k - 1] == events[..k][1..];
    }
  }

  method DeriveIdempotencyKey(hash: string -> string, deviceId: string, events: seq<Event>) returns (key: string)
    ensures key == KeyOver(hash, deviceId, events)
  {
    hide Decimal;
    var material := deviceId + "|" + Decimal(|events|);
    for k := 0 to |events|
      invariant material == deviceId + "|" + Decimal(|events|) + Stamps(events[..k])
    {
      StampsAppend(events, k);
      material := material + Stamp(events[k]);
    }
    assert events[..|events|] == events;
    key := deviceId + ":" + FirstSequence(events) + "-" + LastSequence(events) + ":" + Decimal(|events|) + ":"
      + hash(material);
  }

  /** The same events as far as identifiers and sequence numbers go. */
  ghost predicate SameStamps(a: seq<Event>, b: seq<Event>) {
    |a| == |b| && forall i :: 0 <= i < |a| ==>
      a[i].eventId == b[i].eventId && a[i].sequenceNumber == b[i].sequenceNumber
  }

  /** Nothing but identifiers and sequence numbers reaches the key: never a position or a time. */
  lemma {:induction false} KeyIgnoresTheRest(hash: string -> string, deviceId: string, a: seq<Event>, b: seq<Event>)
    requires SameStamps(a, b)
    ensures KeyOver(hash, deviceId, a) == KeyOver(hash, deviceId, b)
  {
    hide Decimal;
    StampsAgree(a, b);
  }

  lemma {:induction false} StampsAgree(a: seq<Event>, b: seq<Event>)
    requires SameStamps(a, b)
    ensures Stamps(a) == Stamps(b)
  {
    hide Decimal;
    if a != [] { StampsAgree(a[1..], b[1..]); }
  }

  // ---- the key identifies the batch --------------------------------------

  lemma {:induction false} DecimalDigits(n: nat)
    ensures Decimal(n) != "" && forall c :: c in Decimal(n) ==> '0' <= c <= '9'
  {
    if n >= 10 { DecimalDigits(n / 10); }
    Digits(n % 10);
  }

  lemma Digits(d: nat)
    requires d < 10
    ensures '0' <= "0123456789"[d] <= '9'
    ensures forall e: nat :: e < 10 && "0123456789"[e] == "0123456789"[d] ==> e == d
  {
  }

  lemma {:induction false} DecimalInjective(m: nat, n: nat)
    requires Decimal(m) == Decimal(n)
    ensures m == n
  {
    var s, t := Decimal(m), Decimal(n);
    assert s[|s| - 1] == "0123456789"[m % 10] && t[|t| - 1] == "0123456789"[n % 10];
    Digits(m % 10);
    assert s[..|s| - 1] == (if m < 10 then "" else Decimal(m / 10));
    assert t[..|t| - 1] == (if n < 10 then "" else Decimal(n / 10));
    if m >= 10 { DecimalDigits(m / 10); }
    if n >= 10 { DecimalDigits(n / 10); }
    if m >= 10 && n >= 10 { DecimalInjective(m / 10, n / 10); }
  }

  /** No colon, as in a UUID. */
  predicate Plain(id: string) {
    ':' !in id
  }

  ghost predicate PlainIds(events: seq<Event>) {
    forall e :: e in events ==> Plain(e.eventId)
  }

  /** The hashed material, past the device and the count, can be read in one way only. */
  lemma {:induction false} StampsReadBack(a: seq<Event>, b: seq<Event>)
    requires PlainIds(a) && PlainIds(b) && |a| == |b| && Stamps(a) == Stamps(b)
    ensures SameStamps(a, b)
  {
    hide Decimal;
    if a != [] {
      StampReadsBack(a[0], Stamps(a[1..]), b[0], Stamps(b[1..]));
      StampsReadBack(a[1..], b[1..]);
      assert a == [a[0]] + a[1..] && b == [b[0]] + b[1..];
    }
  }

  lemma StampReadsBack(first: Event, rest: string, other: Event, others: string)
    requires Plain(first.eventId) && Plain(other.eventId)
    requires (rest == "" <==> others == "") && (rest != "" ==> rest[0] == '|' && others[0] == '|')
    requires Stamp(first) + rest == Stamp(other) + others
    ensures first.eventId == other.eventId && first.sequenceNumber == other.sequenceNumber && rest == others
  {
    hide Decimal;
    var s, t := Decimal(first.sequenceNumber), Decimal(other.sequenceNumber);
    assert (Stamp(first) + rest)[1..] == first.eventId + [':'] + (s + rest);
    assert (Stamp(other) + others)[1..] == other.eventId + [':'] + (t + others);
    SplitsOneWay(first.eventId, ':', s + rest, other.eventId, t + others);
    var x, y := if rest == "" then "" else rest[1..] + "|", if others == "" then "" else others[1..] + "|";
    assert s + rest + "|" == s + ['|'] + x && t + others + "|" == t + ['|'] + y;
    DecimalDigits(first.sequenceNumber);
    DecimalDigits(other.sequenceNumber);
    SplitsOneWay(s, '|', x, t, y);
    DecimalInjective(first.sequenceNumber, other.sequenceNumber);
    if rest != "" {
      assert x[..|x| - 1] == rest[1..] && y[..|y| - 1] == others[1..];
      assert rest == "|" + rest[1..] && others == "|" + others[1..];
    }
  }

  /** What a key says in the clear, and the hash. */
  lemma KeyReadsBack(d: string, f: string, n: string, h: string, e: string, g: string, m: string, i: string)
    requires ':' !in d && ':' !in f && ':' !in n && ':' !in e && ':' !in g && ':' !in m
    requires d + ":" + f + ":" + n + ":" + h == e + ":" + g + ":" + m + ":" + i
    ensures d == e && f == g && n == m && h == i
  {
    assert d + ":" + f + ":" + n + ":" + h == d + [':'] + (f + ":" + n + ":" + h);
    assert e + ":" + g + ":" + m + ":" + i == e + [':'] + (g + ":" + m + ":" + i);
    SplitsOneWay(d, ':', f + ":" + n + ":" + h, e, g + ":" + m + ":" + i);
    assert f + ":" + n + ":" + h == f + [':'] + (n + ":" + h);
    assert g + ":" + m + ":" + i == g + [':'] + (m + ":" + i);
    SplitsOneWay(f, ':', n + ":" + h, g, m + ":" + i);
    assert n + ":" + h == n + [':'] + h && m + ":" + i == m + [':'] + i;
    SplitsOneWay(n, ':', h, m, i);
  }

  /** First and last number, as the key shows them. */
  function Span(events: seq<Event>): string {
    FirstSequence(events) + "-" + LastSequence(events)
  }

  lemma SpanPlain(events: seq<Event>)
    ensures Plain(Span(events))
  {
    hide Decimal;
    if events != [] {
      DecimalDigits(events[0].sequenceNumber);
      DecimalDigits(events[|events| - 1].sequenceNumber);
    }
  }

  /** Whatever the hash, a key shows the device, the first and the last sequence number, and the count. */
  lemma KeyShowsSpan(h: string -> string, d: string, a: seq<Event>, i: string -> string, e: string, b: seq<Event>)
    requires Plain(d) && Plain(e) && a != [] && b != []
    requires KeyOver(h, d, a) == KeyOver(i, e, b)
    ensures d == e && |a| == |b|
    ensures a[0].sequenceNumber == b[0].sequenceNumber
    ensures a[|a| - 1].sequenceNumber == b[|b| - 1].sequenceNumber
  {
    hide Decimal, Stamps, FirstSequence, LastSequence;
    var x, y := h(d + "|" + Decimal(|a|) + Stamps(a)), i(e + "|" + Decimal(|b|) + Stamps(b));
    assert KeyOver(h, d, a) == d + ":" + Span(a) + ":" + Decimal(|a|) + ":" + x;
    assert KeyOver(i, e, b) == e + ":" + Span(b) + ":" + Decimal(|b|) + ":" + y;
    SpanPlain(a);
    SpanPlain(b);
    DecimalDigits(|a|);
    DecimalDigits(|b|);
    KeyReadsBack(d, Span(a), Decimal(|a|), x, e, Span(b), Decimal(|b|), y);
    DecimalInjective(|a|, |b|);
    SpanReadsBack(a, b);
  }

  lemma SpanReadsBack(a: seq<Event>, b: seq<Event>)
    requires a != [] && b != [] && Span(a) == Span(b)
    ensures a[0].sequenceNumber == b[0].sequenceNumber
    ensures a[|a| - 1].sequenceNumber == b[|b| - 1].sequenceNumber
  {
    hide Decimal;
    var m, n := a[0].sequenceNumber, b[0].sequenceNumber;
    DecimalDigits(m);
    DecimalDigits(n);
    assert Span(a) == Decimal(m) + ['-'] + LastSequence(a) && Span(b) == Decimal(n) + ['-'] + LastSequence(b);
    SplitsOneWay(Decimal(m), '-', LastSequence(a), Decimal(n), LastSequence(b));
    DecimalInjective(m, n);
    DecimalInjective(a[|a| - 1].sequenceNumber, b[|b| - 1].sequenceNumber);
  }

  /**
   * If the hash tells its inputs apart and no id contains a colon, then two batches have one key
   * exactly if they are of one device and agree in their ids and sequence numbers.
   */
  lemma KeyIdentifiesBatch(hash: string -> string, d: string, a: seq<Event>, e: string, b: seq<Event>)
    requires forall x, y :: hash(x) == hash(y) ==> x == y
    requires Plain(d) && Plain(e) && PlainIds(a) && PlainIds(b)
    ensures KeyOver(hash, d, a) == KeyOver(hash, e, b) <==> d == e && SameStamps(a, b)
  {
    hide Decimal, FirstSequence, LastSequence, Stamps;
    if KeyOver(hash, d, a) == KeyOver(hash, e, b) {
      var x, y := d + "|" + Decimal(|a|) + Stamps(a), e + "|" + Decimal(|b|) + Stamps(b);
      assert KeyOver(hash, d, a) == d + ":" + Span(a) + ":" + Decimal(|a|) + ":" + hash(x);
      assert KeyOver(hash, e, b) == e + ":" + Span(b) + ":" + Decimal(|b|) + ":" + hash(y);
      SpanPlain(a);
      SpanPlain(b);
      DecimalDigits(|a|);
      DecimalDigits(|b|);
      KeyReadsBack(d, Span(a), Decimal(|a|), hash(x), e, Span(b), Decimal(|b|), hash(y));
      DecimalInjective(|a|, |b|);
      var prefix := d + "|" + Decimal(|a|);
      assert x[|prefix|..] == Stamps(a) && y[|prefix|..] == Stamps(b);
      StampsReadBack(a, b);
    }
    if d == e && SameStamps(a, b) { KeyIgnoresTheRest(hash, d, a, b); }
  }

  lemma TwoStamps(events: seq<Event>)
    requires |events| == 2
    ensures Stamps(events) == Stamp(events[0]) + Stamp(events[1])
  {
    hide Decimal;
    var last := [events[1]];
    assert events[1..] == last && last[1..] == [] && Stamps(last) == Stamp(events[1]) + Stamps(last[1..]);
    assert Stamps(events) == Stamp(events[0]) + Stamps(events[1..]);
  }

  /** With colons in the ids it fails, whatever the hash: two batches of different events under one key. */
  lemma ColonsCollide(hash: string -> string, deviceId: string, a: seq<Event>, b: seq<Event>)
    requires |a| == |b| == 2
    requires a[0].eventId == "a" && a[1].eventId == "b:1|c" && b[0].eventId == "a:1|b" && b[1].eventId == "c"
    requires a[0].sequenceNumber == b[0].sequenceNumber == 1 && a[1].sequenceNumber == b[1].sequenceNumber == 3
    ensures !SameStamps(a, b) && KeyOver(hash, deviceId, a) == KeyOver(hash, deviceId, b)
  {
    assert a[0].eventId[0] == b[0].eventId[0] && |a[0].eventId| != |b[0].eventId|;
    assert Decimal(1) == "1" && Decimal(3) == "3";
    TwoStamps(a);
    TwoStamps(b);
    assert Stamps(a) == "|a:1|b:1|c:3" && Stamps(b) == "|a:1|b:1|c:3";
  }

  // ---- selection ---------------------------------------------------------

  datatype BatchSelection = BatchSelection(deviceId: string, records: seq<QueuedEvent>, events: seq<Event>,
    idempotencyKey: string)

  /** The largest batch allowed: at least one, and a request may only shrink it. */
  function BatchLimit(maxBatchSize: Num): (n: nat)
    ensures 1 <= n <= MAX_EVENTS_PER_BATCH
  {
    var asked := if maxBatchSize.Finite? then maxBatchSize.value.Floor else MAX_EVENTS_PER_BATCH;
    if asked < 1 then 1 else if asked > MAX_EVENTS_PER_BATCH then MAX_EVENTS_PER_BATCH else asked
  }

  /** The first record, in list order, that has waited longest. */
  function OldestIndex(records: seq<QueuedEvent>): (i: nat)
    requires records != []
    ensures i < |records|
    ensures forall j :: 0 <= j < |records| ==> records[i].queuedAtMs <= records[j].queuedAtMs
    ensures forall j :: 0 <= j < i ==> records[i].queuedAtMs < records[j].queuedAtMs
  {
    if |records| == 1 then 0
    else
      var i := OldestIndex(records[..|records| - 1]);
      assert records[..|records| - 1][i] == records[i];
      if records[|records| - 1].queuedAtMs < records[i].queuedAtMs then |records| - 1 else i
  }

  function OfDevice(records: seq<QueuedEvent>, deviceId: string): (own: seq<QueuedEvent>)
    ensures forall r :: r in own <==> r in records && r.event.deviceId == deviceId
    ensures |own| <= |records|
  {
    if records == [] then []
    else
      assert forall r :: r in records <==> r == records[0] || r in records[1..];
      (if records[0].event.deviceId == deviceId then [records[0]] else []) + OfDevice(records[1..], deviceId)
  }

  function Take(records: seq<QueuedEvent>, n: nat): seq<QueuedEvent> {
    if |records| <= n then records else records[..n]
  }

  function SelectFrom(hash: string -> string, ordered: seq<QueuedEvent>, size: nat): BatchSelection
    requires ordered != []
  {
    var deviceId := ordered[OldestIndex(ordered)].event.deviceId;
    var batch := Take(OfDevice(ordered, deviceId), size);
    BatchSelection(deviceId, batch, Events(batch), KeyOver(hash, deviceId, Events(batch)))
  }

  function Select(hash: string -> string, records: seq<QueuedEvent>, maxBatchSize: Num): Option<BatchSelection> {
    if records == [] then None
    else
      assert OrderQueue(records) != [] by { SortPermutes(Precedes, records); }
      Some(SelectFrom(hash, OrderQueue(records), BatchLimit(maxBatchSize)))
  }

  lemma OldestOfOne(records: seq<QueuedEvent>)
    requires records != []
    ensures OldestIndex(records[..1]) == 0
  {
  }

  lemma OldestOfMore(records: seq<QueuedEvent>, k: nat)
    requires 1 <= k < |records|
    ensures var i := OldestIndex(records[..k]);
            && i < k
            && OldestIndex(records[..k + 1]) == if records[k].queuedAtMs < records[i].queuedAtMs then k else i
  {
    assert records[..k + 1][..k] == records[..k];
  }

  method SelectBatch(hash: string -> string, records: seq<QueuedEvent>, maxBatchSize: Num)
    returns (selection: Option<BatchSelection>)
    ensures selection == Select(hash, records, maxBatchSize)
  {
    hide Precedes, KeyOver, Decimal, BatchLimit, OfDevice, Events, Take, OldestIndex;
    if records == [] { return None; }
    var size := BatchLimit(maxBatchSize);
    SortPermutes(Precedes, records);
    var ordered := OrderQueue(records);
    var head := 0;
    OldestOfOne(ordered);
    for k := 1 to |ordered|
      invariant head < k && head == OldestIndex(ordered[..k])
    {
      OldestOfMore(ordered, k);
      if ordered[k].queuedAtMs < ordered[head].queuedAtMs { head := k; }
    }
    assert ordered[..|ordered|] == ordered;
    var deviceId := ordered[head].event.deviceId;
    var batch := Take(OfDevice(ordered, deviceId), size);
    var events := Events(batch);
    var key := DeriveIdempotencyKey(hash, deviceId, events);
    return Some(BatchSelection(deviceId, batch, events, key));
  }

  lemma {:induction false} OfDeviceSorted(records: seq<QueuedEvent>, deviceId: string)
    requires Sorted(Precedes, records) && DistinctIds(records)
    ensures Sorted(Precedes, OfDevice(records, deviceId)) && DistinctIds(OfDevice(records, deviceId))
  {
    hide Precedes;
    if records != [] {
      TailAfterHead(records);
      OfDeviceSorted(records[1..], deviceId);
      HeadBeforeRest(records[0], OfDevice(records[1..], deviceId));
    }
  }

  /**
   * What a batch is: the longest-waiting record's device alone, its records in sequence order
   * with none skipped, no more than the limit, and everything left behind comes later.
   */
  lemma BatchMeaning(hash: string -> string, records: seq<QueuedEvent>, maxBatchSize: Num)
    requires DistinctIds(records) && records != []
    ensures var b := Select(hash, records, maxBatchSize).value;
            && 1 <= |b.records| <= BatchLimit(maxBatchSize)
            && Sorted(Precedes, b.records) && DistinctIds(b.records)
            && (forall r :: r in b.records ==> r in records && r.event.deviceId == b.deviceId)
            && (exists r :: r in records && r.event.deviceId == b.deviceId && forall o :: o in records ==>
              r.queuedAtMs <= o.queuedAtMs)
            && (forall r :: r in records && r.event.deviceId == b.deviceId && r !in b.records ==>
                  |b.records| == BatchLimit(maxBatchSize) && forall x :: x in b.records ==> Precedes(x, r))
            && b.events == Events(b.records) && b.idempotencyKey == KeyOver(hash, b.deviceId, b.events)
  {
    hide Precedes, KeyOver, BatchLimit, Events;
    var ordered := OrderQueue(records);
    PrecedesIsOrder();
    SortPermutes(Precedes, records);
    SortSorts(Precedes, records);
    OrderKeepsDistinct(records);
    BatchOf(hash, ordered, BatchLimit(maxBatchSize));
  }

  /** Of one device: the lower sequence number first, then the earlier capture time, then the lesser id. */
  predicate InTurn(a: Event, b: Event) {
    || a.sequenceNumber < b.sequenceNumber
    || (&& a.sequenceNumber == b.sequenceNumber
        && if a.capturedAt == b.capturedAt then AtMost(a.eventId, b.eventId) else AtMost(a.capturedAt, b.capturedAt))
  }

  /** The whole number asked for, at least one and at most the platform's largest batch, which is the default. */
  predicate SizeAsked(size: nat, maxBatchSize: Num) {
    if maxBatchSize.NonFinite? || maxBatchSize.value >= MAX_EVENTS_PER_BATCH as real then size == MAX_EVENTS_PER_BATCH
    else if maxBatchSize.value < 1.0 then size == 1
    else size as real <= maxBatchSize.value < (size + 1) as real
  }

  /** A batch goes out in turn: nothing left behind is due before any of it, and it is full if anything is. */
  lemma BatchInTurn(hash: string -> string, records: seq<QueuedEvent>, maxBatchSize: Num)
    requires DistinctIds(records) && records != []
    ensures SizeAsked(BatchLimit(maxBatchSize), maxBatchSize)
    ensures var b := Select(hash, records, maxBatchSize).value;
            && (forall i, j :: 0 <= i < j < |b.records| ==> InTurn(b.records[i].event, b.records[j].event))
            && (forall r, x :: r in records && r.event.deviceId == b.deviceId && r !in b.records && x in b.records ==>
                  InTurn(x.event, r.event))
  {
    hide SelectFrom, OrderQueue, Precedes, AtMost, InTurn, DistinctIds;
    BatchMeaning(hash, records, maxBatchSize);
    var b := Select(hash, records, maxBatchSize).value;
    SortedInTurn(b.records, b.deviceId);
    forall r, x | r in records && r.event.deviceId == b.deviceId && r !in b.records && x in b.records
      ensures InTurn(x.event, r.event)
    {
      PrecedesInTurn(x, r);
    }
  }

  lemma PrecedesInTurn(a: QueuedEvent, b: QueuedEvent)
    requires Precedes(a, b) && a.event.deviceId == b.event.deviceId
    ensures InTurn(a.event, b.event)
  {
    hide AtMost;
  }

  lemma SortedInTurn(records: seq<QueuedEvent>, deviceId: string)
    requires Sorted(Precedes, records) && forall r :: r in records ==> r.event.deviceId == deviceId
    ensures forall i, j :: 0 <= i < j < |records| ==> InTurn(records[i].event, records[j].event)
  {
    hide Precedes, InTurn;
    forall i, j | 0 <= i < j < |records| ensures InTurn(records[i].event, records[j].event) {
      assert records[i] in records && records[j] in records;
      PrecedesInTurn(records[i], records[j]);
    }
  }

  lemma BatchOf(hash: string -> string, ordered: seq<QueuedEvent>, size: nat)
    requires DistinctIds(ordered) && Sorted(Precedes, ordered) && ordered != [] && size >= 1
    ensures var b := SelectFrom(hash, ordered, size);
            && 1 <= |b.records| <= size
            && Sorted(Precedes, b.records) && DistinctIds(b.records)
            && (forall r :: r in b.records ==> r in ordered && r.event.deviceId == b.deviceId)
            && (exists r :: r in ordered && r.event.deviceId == b.deviceId && forall o :: o in ordered ==>
              r.queuedAtMs <= o.queuedAtMs)
            && (forall r :: r in ordered && r.event.deviceId == b.deviceId && r !in b.records ==>
                  |b.records| == size && forall x :: x in b.records ==> Precedes(x, r))
  {
    hide Precedes, KeyOver, Events;
    var head := ordered[OldestIndex(ordered)];
    assert head in ordered;
    var own := OfDevice(ordered, head.event.deviceId);
    OfDeviceSorted(ordered, head.event.deviceId);
    assert head in own;
    TakeMeaning(own, size);
  }

  lemma TakeMeaning(own: seq<QueuedEvent>, size: nat)
    requires Sorted(Precedes, own)
    ensures forall r :: r in own && r !in Take(own, size) ==>
              |Take(own, size)| == size && forall x :: x in Take(own, size) ==> Precedes(x, r)
  {
    hide Precedes;
    assert forall k :: 0 <= k < |Take(own, size)| ==> Take(own, size)[k] == own[k];
    forall r | r in own && r !in Take(own, size)
      ensures |Take(own, size)| == size && forall x :: x in Take(own, size) ==> Precedes(x, r)
    {
      var j :| 0 <= j < |own| && own[j] == r;
    }
  }

  /** Selection depends on the set of records alone, not on the order storage lists them in. */
  lemma SelectionIgnoresArrival(hash: string -> string, s: seq<QueuedEvent>, t: seq<QueuedEvent>, maxBatchSize: Num)
    requires DistinctIds(s) && multiset(s) == multiset(t)
    ensures Select(hash, s, maxBatchSize) == Select(hash, t, maxBatchSize)
  {
    assert |s| == |multiset(s)| == |multiset(t)| == |t|;
    OrderIgnoresArrival(s, t);
  }

  // ---- the attempt bookkeeping does not matter ---------------------------

  /** The same record, but for what is known of earlier attempts. */
  predicate SameEvent(a: QueuedEvent, b: QueuedEvent) {
    a.event == b.event && a.queuedAtMs == b.queuedAtMs
  }

  ghost predicate SameEvents(s: seq<QueuedEvent>, t: seq<QueuedEvent>) {
    |s| == |t| && forall i :: 0 <= i < |s| ==> SameEvent(s[i], t[i])
  }

  lemma {:induction false} OldestAgrees(s: seq<QueuedEvent>, t: seq<QueuedEvent>)
    requires SameEvents(s, t) && s != []
    ensures OldestIndex(s) == OldestIndex(t)
  {
    var i, j := OldestIndex(s), OldestIndex(t);
    assert SameEvent(s[i], t[i]) && SameEvent(s[j], t[j]);
  }

  lemma {:induction false} OfDeviceAgrees(s: seq<QueuedEvent>, t: seq<QueuedEvent>, deviceId: string)
    requires SameEvents(s, t)
    ensures SameEvents(OfDevice(s, deviceId), OfDevice(t, deviceId))
  {
    if s != [] {
      assert SameEvent(s[0], t[0]);
      OfDeviceAgrees(s[1..], t[1..], deviceId);
    }
  }

  /** Ordered lists of the same events give the same batch under the same key. */
  lemma SelectFromAgrees(hash: string -> string, s: seq<QueuedEvent>, t: seq<QueuedEvent>, size: nat)
    requires SameEvents(s, t) && s != []
    ensures SelectFrom(hash, s, size).deviceId == SelectFrom(hash, t, size).deviceId
    ensures SelectFrom(hash, s, size).events == SelectFrom(hash, t, size).events
    ensures SelectFrom(hash, s, size).idempotencyKey == SelectFrom(hash, t, size).idempotencyKey
  {
    hide KeyOver;
    OldestAgrees(s, t);
    var i := OldestIndex(s);
    assert SameEvent(s[i], t[i]);
    var deviceId := s[i].event.deviceId;
    OfDeviceAgrees(s, t, deviceId);
    var a, b := Take(OfDevice(s, deviceId), size), Take(OfDevice(t, deviceId), size);
    assert Events(a) == Events(b) by {
      forall k | 0 <= k < |a| ensures Events(a)[k] == Events(b)[k] {
        assert SameEvent(OfDevice(s, deviceId)[k], OfDevice(t, deviceId)[k]);
      }
    }
  }
}
