/** The data-key cache on values: a timed LRU list, and the properties of every history of calls. */
module LruModel {
  import opened Basics

  const DATA_KEY_BYTES := 32
  const DEFAULT_MAX_CACHED_DATA_KEYS := 256.0
  const DEFAULT_DATA_KEY_TTL_MS := 300000.0

  datatype Value = Value(plaintextKey: Bytes, encryptedDataKey: Bytes, keyId: string)

  /** One entry; the list runs from the least to the most recently touched. */
  datatype Item = Item(key: string, value: Value, expiresAtMs: real)

  datatype Reason = Expired | Capacity | Replaced | Deleted | Cleared

  /** One call of the eviction hook, made while the key material is still intact. */
  datatype Eviction = Eviction(key: string, value: Value, reason: Reason)

  datatype Stats = Stats(hits: nat, misses: nat, expirations: nat, capacityEvictions: nat)

  datatype Cache = Cache(items: seq<Item>, stats: Stats, evictions: seq<Eviction>)

  // ---- list operations ---------------------------------------------------

  function IndexOf(items: seq<Item>, key: string): (i: nat)
    ensures i <= |items|
    ensures i < |items| ==> items[i].key == key
    ensures forall j :: 0 <= j < i ==> items[j].key != key
  {
    if items == [] || items[0].key == key then 0 else 1 + IndexOf(items[1..], key)
  }

  predicate Has(items: seq<Item>, key: string) {
    IndexOf(items, key) < |items|
  }

  function Without(items: seq<Item>, i: nat): seq<Item>
    requires i < |items|
  {
    items[..i] + items[i + 1..]
  }

  function Evicted(item: Item, reason: Reason): Eviction {
    Eviction(item.key, item.value, reason)
  }

  function EvictedAll(items: seq<Item>, reason: Reason): seq<Eviction> {
    if items == [] then [] else [Evicted(items[0], reason)] + EvictedAll(items[1..], reason)
  }

  predicate IsExpired(item: Item, nowMs: real) {
    nowMs >= item.expiresAtMs
  }

  function Live(items: seq<Item>, nowMs: real): seq<Item> {
    if items == [] then []
    else (if IsExpired(items[0], nowMs) then [] else [items[0]]) + Live(items[1..], nowMs)
  }

  function Dead(items: seq<Item>, nowMs: real): seq<Item> {
    if items == [] then []
    else (if IsExpired(items[0], nowMs) then [items[0]] else []) + Dead(items[1..], nowMs)
  }

  // ---- the operations ----------------------------------------------------

  function Get(c: Cache, key: string, nowMs: real): (Cache, Option<Value>) {
    var i := IndexOf(c.items, key);
    if i == |c.items| then (c.(stats := c.stats.(misses := c.stats.misses + 1)), None)
    else if IsExpired(c.items[i], nowMs) then
      (Cache(
         Without(c.items, i),
         c.stats.(misses := c.stats.misses + 1, expirations := c.stats.expirations + 1),
         c.evictions + [Evicted(c.items[i], Expired)]),
       None)
    else
      (c.(items := Without(c.items, i) + [c.items[i]], stats := c.stats.(hits := c.stats.hits + 1)),
       Some(c.items[i].value))
  }

  function Remove(c: Cache, key: string, reason: Reason): Cache {
    var i := IndexOf(c.items, key);
    if i == |c.items| then c
    else c.(items := Without(c.items, i), evictions := c.evictions + [Evicted(c.items[i], reason)])
  }

  function EvictToCapacity(c: Cache, maxEntries: nat): Cache
    decreases |c.items|
  {
    if |c.items| <= maxEntries then c
    else
      EvictToCapacity(
        Cache(
          c.items[1..],
          c.stats.(capacityEvictions := c.stats.capacityEvictions + 1),
          c.evictions + [Evicted(c.items[0], Capacity)]),
        maxEntries)
  }

  function Put(c: Cache, key: string, value: Value, expiresAtMs: real): Cache {
    var removed := Remove(c, key, Replaced);
    removed.(items := removed.items + [Item(key, value, expiresAtMs)])
  }

  /** A key of any other length is refused (the source throws) and nothing changes. */
  predicate Accepts(value: Value) {
    |value.plaintextKey| == DATA_KEY_BYTES
  }

  function Set(c: Cache, key: string, value: Value, expiresAtMs: real, maxEntries: nat): Cache {
    if !Accepts(value) then c else EvictToCapacity(Put(c, key, value, expiresAtMs), maxEntries)
  }

  function Clear(c: Cache): Cache {
    c.(items := [], evictions := c.evictions + EvictedAll(c.items, Cleared))
  }

  function PruneExpired(c: Cache, nowMs: real): Cache {
    var dead := Dead(c.items, nowMs);
    Cache(
      Live(c.items, nowMs),
      c.stats.(expirations := c.stats.expirations + |dead|),
      c.evictions + EvictedAll(dead, Expired))
  }

  datatype Op =
    | GetOp(key: string, nowMs: real)
    | SetOp(key: string, value: Value, nowMs: real)
    | DeleteOp(key: string)
    | ClearOp
    | PruneOp(nowMs: real)

  datatype Limits = Limits(maxEntries: nat, ttlMs: real)

  function Apply(c: Cache, op: Op, limits: Limits): Cache {
    match op
    case GetOp(key, nowMs) => Get(c, key, nowMs).0
    case SetOp(key, value, nowMs) => Set(c, key, value, nowMs + limits.ttlMs, limits.maxEntries)
    case DeleteOp(key) => Remove(c, key, Deleted)
    case ClearOp => Clear(c)
    case PruneOp(nowMs) => PruneExpired(c, nowMs)
  }

  const EMPTY := Cache([], Stats(0, 0, 0, 0), [])

  // ---- every state: distinct keys, bounded size --------------------------

  ghost predicate Distinct(items: seq<Item>) {
    forall i, j :: 0 <= i < j < |items| ==> items[i].key != items[j].key
  }

  ghost predicate WellFormed(c: Cache, limits: Limits) {
    Distinct(c.items) && |c.items| <= limits.maxEntries
  }

  lemma {:induction false} LiveKeeps(items: seq<Item>, nowMs: real)
    ensures forall x :: x in Live(items, nowMs) <==> x in items && !IsExpired(x, nowMs)
    ensures |Live(items, nowMs)| + |Dead(items, nowMs)| == |items|
  {
    if items != [] {
      LiveKeeps(items[1..], nowMs);
      assert items == [items[0]] + items[1..];
    }
  }

  lemma {:induction false} LiveDistinct(items: seq<Item>, nowMs: real)
    requires Distinct(items)
    ensures Distinct(Live(items, nowMs))
  {
    if items != [] {
      LiveDistinct(items[1..], nowMs);
      LiveKeeps(items[1..], nowMs);
      forall x | x in Live(items[1..], nowMs) ensures x.key != items[0].key {
        var j :| 0 <= j < |items| - 1 && items[1..][j] == x;
      }
    }
  }

  lemma PutWellFormed(c: Cache, key: string, value: Value, expiresAtMs: real)
    requires Distinct(c.items)
    ensures var p := Put(c, key, value, expiresAtMs);
            && Distinct(p.items) && p.items != [] && p.items[|p.items| - 1] == Item(key, value, expiresAtMs)
            && |p.items| == if Has(c.items, key) then |c.items| else |c.items| + 1
  {
  }

  /** From a full cache a new key evicts exactly the head; otherwise nothing is evicted. */
  lemma SetEvictsHead(c: Cache, key: string, value: Value, expiresAtMs: real, limits: Limits)
    requires WellFormed(c, limits) && Accepts(value) && limits.maxEntries >= 1
    ensures var p := Put(c, key, value, expiresAtMs);
            var s := Set(c, key, value, expiresAtMs, limits.maxEntries);
            if |p.items| <= limits.maxEntries then s == p
            else
              && |p.items| == limits.maxEntries + 1 && !Has(c.items, key)
              && s.items == p.items[1..]
              && s.evictions == p.evictions + [Evicted(p.items[0], Capacity)]
              && s.stats == c.stats.(capacityEvictions := c.stats.capacityEvictions + 1)
  {
    PutWellFormed(c, key, value, expiresAtMs);
    EvictOne(Put(c, key, value, expiresAtMs), limits.maxEntries);
  }

  lemma EvictOne(p: Cache, maxEntries: nat)
    ensures |p.items| <= maxEntries ==> EvictToCapacity(p, maxEntries) == p
    ensures |p.items| == maxEntries + 1 ==>
              EvictToCapacity(p, maxEntries) ==
              Cache(p.items[1..], p.stats.(capacityEvictions := p.stats.capacityEvictions + 1),
                    p.evictions + [Evicted(p.items[0], Capacity)])
  {
  }

  /** Size and distinctness are invariants of every operation. */
  lemma ApplyWellFormed(c: Cache, op: Op, limits: Limits)
    requires WellFormed(c, limits) && limits.maxEntries >= 1
    ensures WellFormed(Apply(c, op, limits), limits)
  {
    match op
    case SetOp(key, value, nowMs) =>
      if Accepts(value) {
        PutWellFormed(c, key, value, nowMs + limits.ttlMs);
        SetEvictsHead(c, key, value, nowMs + limits.ttlMs, limits);
      }
    case PruneOp(nowMs) =>
      LiveKeeps(c.items, nowMs);
      LiveDistinct(c.items, nowMs);
    case GetOp(key, nowMs) =>
      if Has(c.items, key) { WithoutDistinct(c.items, IndexOf(c.items, key)); }
    case DeleteOp(key) =>
      if Has(c.items, key) { WithoutDistinct(c.items, IndexOf(c.items, key)); }
    case ClearOp =>
  }

  lemma WithoutDistinct(items: seq<Item>, i: nat)
    requires Distinct(items) && i < |items|
    ensures Distinct(Without(items, i)) && |Without(items, i)| == |items| - 1
    ensures Distinct(Without(items, i) + [items[i]])
  {
  }

  /** A freshly set entry is found until its time to live has passed, however full the cache was. */
  lemma SetThenGet(c: Cache, key: string, value: Value, expiresAtMs: real, limits: Limits, nowMs: real)
    requires WellFormed(c, limits) && limits.maxEntries >= 1 && Accepts(value)
    ensures Get(Set(c, key, value, expiresAtMs, limits.maxEntries), key, nowMs).1 ==
            if nowMs < expiresAtMs then Some(value) else None
  {
    PutWellFormed(c, key, value, expiresAtMs);
    SetEvictsHead(c, key, value, expiresAtMs, limits);
    var items := Set(c, key, value, expiresAtMs, limits.maxEntries).items;
    assert items[|items| - 1] == Item(key, value, expiresAtMs);
    assert Distinct(items);
  }

  // ---- refinement of a map with expiry -----------------------------------

  /**
   * The simple model: the last value set under each key with its expiry, unbounded and without
   * recency, and which of those keys the cache has dropped for capacity.
   */
  datatype Reference = Reference(last: map<string, Item>, dropped: set<string>)

  function Forget(r: Reference, keys: set<string>): Reference {
    Reference(r.last - keys, r.dropped - keys)
  }

  function ExpiredKeys(r: Reference, nowMs: real): set<string> {
    set k | k in r.last && nowMs >= r.last[k].expiresAtMs
  }

  /** `victims` is the cache's choice; everything else is determined. */
  function ReferenceStep(r: Reference, op: Op, limits: Limits, victims: set<string>): Reference {
    match op
    case GetOp(key, nowMs) => Forget(r, ExpiredKeys(r, nowMs) * {key})
    case SetOp(key, value, nowMs) =>
      if |value.plaintextKey| != 32 then r
      else Reference(r.last[key := Item(key, value, nowMs + limits.ttlMs)], r.dropped - {key} + victims)
    case DeleteOp(key) => Forget(r, {key})
    case ClearOp => Forget(r, r.last.Keys)
    case PruneOp(nowMs) => Forget(r, ExpiredKeys(r, nowMs))
  }

  /** The last value set, if it is unexpired and was not dropped. */
  function ReferenceGet(r: Reference, key: string, nowMs: real): Option<Value> {
    if key in r.last && key !in r.dropped && nowMs < r.last[key].expiresAtMs then Some(r.last[key].value) else None
  }

  /** The cache holds exactly the undropped part of the reference. */
  ghost predicate Refines(c: Cache, r: Reference) {
    && r.dropped <= r.last.Keys
    && (forall item :: item in c.items ==> item.key in r.last && item.key !in r.dropped && r.last[item.key] == item)
    && (forall k :: k in r.last && k !in r.dropped ==> r.last[k] in c.items && r.last[k].key == k)
    && (forall k :: k in r.last ==> r.last[k].key == k)
  }

  /** The keys an operation drops for capacity. */
  function Victims(c: Cache, op: Op, limits: Limits): set<string> {
    if op.SetOp? && Accepts(op.value) then
      var p := Put(c, op.key, op.value, op.nowMs + limits.ttlMs);
      if |p.items| > limits.maxEntries && p.items != [] then {p.items[0].key} else {}
    else {}
  }

  lemma FoundByReference(c: Cache, r: Reference, key: string)
    requires Refines(c, r)
    ensures Has(c.items, key) <==> key in r.last && key !in r.dropped
    ensures Has(c.items, key) ==> c.items[IndexOf(c.items, key)] == r.last[key]
  {
    if key in r.last && key !in r.dropped {
      var i :| 0 <= i < |c.items| && c.items[i] == r.last[key];
    }
  }

  /** A lookup answers what the reference answers. */
  lemma GetRefines(c: Cache, r: Reference, key: string, nowMs: real)
    requires Refines(c, r)
    ensures Get(c, key, nowMs).1 == ReferenceGet(r, key, nowMs)
  {
    FoundByReference(c, r, key);
  }

  lemma WithoutMembers(items: seq<Item>, i: nat)
    requires Distinct(items) && i < |items|
    ensures forall x :: x in Without(items, i) <==> x in items && x.key != items[i].key
  {
    forall x | x in items && x.key != items[i].key ensures x in Without(items, i) {
      var j :| 0 <= j < |items| && items[j] == x;
      assert Without(items, i)[if j < i then j else j - 1] == x;
    }
  }

  lemma RemovedRefines(c: Cache, r: Reference, key: string, reason: Reason)
    requires Distinct(c.items) && Refines(c, r)
    ensures Refines(Remove(c, key, reason), Forget(r, {key}))
  {
    FoundByReference(c, r, key);
    if Has(c.items, key) { WithoutMembers(c.items, IndexOf(c.items, key)); }
  }

  lemma PutRefines(c: Cache, r: Reference, key: string, value: Value, expiresAtMs: real)
    requires Distinct(c.items) && Refines(c, r)
    ensures Refines(Put(c, key, value, expiresAtMs),
      Reference(r.last[key := Item(key, value, expiresAtMs)], r.dropped - {key}))
  {
    RemovedRefines(c, r, key, Replaced);
  }

  lemma DropHeadRefines(c: Cache, r: Reference, d: Cache)
    requires Distinct(c.items) && Refines(c, r) && c.items != [] && d.items == c.items[1..]
    ensures Refines(d, r.(dropped := r.dropped + {c.items[0].key}))
  {
    assert c.items == [c.items[0]] + c.items[1..];
    forall item | item in d.items ensures item.key != c.items[0].key {
      var j :| 0 <= j < |d.items| && d.items[j] == item;
      assert c.items[j + 1] == item;
    }
  }

  lemma SetRefines(c: Cache, r: Reference, op: Op, limits: Limits)
    requires op.SetOp? && Accepts(op.value)
    requires WellFormed(c, limits) && limits.maxEntries >= 1 && Refines(c, r)
    ensures Refines(Apply(c, op, limits), ReferenceStep(r, op, limits, Victims(c, op, limits)))
  {
    var expiresAtMs := op.nowMs + limits.ttlMs;
    var p := Put(c, op.key, op.value, expiresAtMs);
    PutWellFormed(c, op.key, op.value, expiresAtMs);
    PutRefines(c, r, op.key, op.value, expiresAtMs);
    SetEvictsHead(c, op.key, op.value, expiresAtMs, limits);
    if |p.items| > limits.maxEntries {
      DropHeadRefines(p, Reference(r.last[op.key := Item(op.key, op.value, expiresAtMs)], r.dropped - {op.key}),
        Apply(c, op, limits));
    }
  }

  lemma GetStepRefines(c: Cache, r: Reference, key: string, nowMs: real)
    requires Distinct(c.items) && Refines(c, r)
    ensures Refines(Get(c, key, nowMs).0, Forget(r, ExpiredKeys(r, nowMs) * {key}))
  {
    FoundByReference(c, r, key);
    if Has(c.items, key) {
      WithoutMembers(c.items, IndexOf(c.items, key));
    }
  }

  /** One step of the cache is one step of the reference, with the cache choosing the victims. */
  lemma ApplyRefines(c: Cache, r: Reference, op: Op, limits: Limits)
    requires WellFormed(c, limits) && limits.maxEntries >= 1 && Refines(c, r)
    ensures Refines(Apply(c, op, limits), ReferenceStep(r, op, limits, Victims(c, op, limits)))
  {
    match op
    case GetOp(key, nowMs) => GetStepRefines(c, r, key, nowMs);
    case SetOp(key, value, nowMs) =>
      if Accepts(value) { SetRefines(c, r, op, limits); }
    case DeleteOp(key) => RemovedRefines(c, r, key, Deleted);
    case ClearOp =>
    case PruneOp(nowMs) => LiveKeeps(c.items, nowMs);
  }

  function Run(c: Cache, ops: seq<Op>, limits: Limits): Cache
    decreases |ops|
  {
    if ops == [] then c else Run(Apply(c, ops[0], limits), ops[1..], limits)
  }

  function ReferenceRun(c: Cache, r: Reference, ops: seq<Op>, limits: Limits): Reference
    decreases |ops|
  {
    if ops == [] then r
    else
      ReferenceRun(
        Apply(c, ops[0], limits),
        ReferenceStep(r, ops[0], limits, Victims(c, ops[0], limits)),
        ops[1..], limits)
  }

  lemma {:induction false} RunRefinesFrom(c: Cache, r: Reference, ops: seq<Op>, limits: Limits)
    requires WellFormed(c, limits) && limits.maxEntries >= 1 && Refines(c, r)
    ensures WellFormed(Run(c, ops, limits), limits)
    ensures Refines(Run(c, ops, limits), ReferenceRun(c, r, ops, limits))
    decreases |ops|
  {
    if ops != [] {
      ApplyWellFormed(c, ops[0], limits);
      ApplyRefines(c, r, ops[0], limits);
      RunRefinesFrom(Apply(c, ops[0], limits), ReferenceStep(r, ops[0], limits, Victims(c, ops[0], limits)), ops[1..],
        limits);
    }
  }

  /**
   * After any history, with any clock readings: at most `maxEntries` entries, and a lookup returns
   * the last value set exactly if it is unexpired and not evicted.  Only a set gives a key an expiry.
   */
  lemma CacheRefinesReference(ops: seq<Op>, key: string, nowMs: real, limits: Limits)
    requires limits.maxEntries >= 1
    ensures var c := Run(EMPTY, ops, limits);
            var r := ReferenceRun(EMPTY, Reference(map[], {}), ops, limits);
            |c.items| <= limits.maxEntries && Get(c, key, nowMs).1 == ReferenceGet(r, key, nowMs)
  {
    RunRefinesFrom(EMPTY, Reference(map[], {}), ops, limits);
    GetRefines(Run(EMPTY, ops, limits), ReferenceRun(EMPTY, Reference(map[], {}), ops, limits), key, nowMs);
  }

  // ---- least recently touched --------------------------------------------

  /** The keys an operation touches: a hit or an accepted set. */
  function Touched(c: Cache, op: Op): seq<string> {
    match op
    case GetOp(key, nowMs) => if Get(c, key, nowMs).1.Some? then [key] else []
    case SetOp(key, value, _) => if Accepts(value) then [key] else []
    case _ => []
  }

  function LastTouch(log: seq<string>, key: string): (i: int)
    ensures -1 <= i < |log|
    ensures i >= 0 ==> log[i] == key
    ensures forall j :: i < j < |log| ==> log[j] != key
  {
    if log == [] then -1
    else if log[|log| - 1] == key then |log| - 1
    else LastTouch(log[..|log| - 1], key)
  }

  lemma LastTouchAppend(log: seq<string>, key: string, touched: string)
    ensures LastTouch(log + [touched], key) == if key == touched then |log| else LastTouch(log, key)
  {
    assert (log + [touched])[..|log|] == log;
  }

  /** List order is the order of last touches. */
  ghost predicate Recency(items: seq<Item>, log: seq<string>) {
    && (forall i :: 0 <= i < |items| ==> LastTouch(log, items[i].key) >= 0)
    && (forall i, j :: 0 <= i < j < |items| ==> LastTouch(log, items[i].key) < LastTouch(log, items[j].key))
  }

  lemma WithoutRecency(items: seq<Item>, i: nat, log: seq<string>)
    requires i < |items| && Recency(items, log)
    ensures Recency(Without(items, i), log)
  {
    var w := Without(items, i);
    forall j | 0 <= j < |w| ensures w[j] == items[if j < i then j else j + 1] {}
  }

  lemma TouchRecency(items: seq<Item>, item: Item, log: seq<string>)
    requires Recency(items, log) && (forall j :: 0 <= j < |items| ==> items[j].key != item.key)
    ensures Recency(items + [item], log + [item.key])
  {
    forall j | 0 <= j < |items| + 1
      ensures LastTouch(log + [item.key], (items + [item])[j].key) == if j < |items| then LastTouch(log, items[j].key)
        else |log|
    {
      LastTouchAppend(log, (items + [item])[j].key, item.key);
    }
  }

  lemma ConsRecency(item: Item, rest: seq<Item>, log: seq<string>)
    requires Recency(rest, log) && LastTouch(log, item.key) >= 0
    requires forall x :: x in rest ==> LastTouch(log, item.key) < LastTouch(log, x.key)
    ensures Recency([item] + rest, log)
  {
  }

  lemma {:induction false} LiveRecency(items: seq<Item>, nowMs: real, log: seq<string>)
    requires Recency(items, log)
    ensures Recency(Live(items, nowMs), log)
  {
    if items != [] {
      LiveRecency(items[1..], nowMs, log);
      LiveKeeps(items[1..], nowMs);
      ConsRecency(items[0], Live(items[1..], nowMs), log);
    }
  }

  lemma GetRecency(c: Cache, key: string, nowMs: real, limits: Limits, log: seq<string>)
    requires WellFormed(c, limits) && Recency(c.items, log)
    ensures Recency(Get(c, key, nowMs).0.items, log + Touched(c, GetOp(key, nowMs)))
  {
    assert log + [] == log;
    if Has(c.items, key) {
      var i := IndexOf(c.items, key);
      WithoutRecency(c.items, i, log);
      WithoutMembers(c.items, i);
      TouchRecency(Without(c.items, i), c.items[i], log);
    }
  }

  lemma PutRecency(c: Cache, key: string, value: Value, expiresAtMs: real, log: seq<string>)
    requires Distinct(c.items) && Recency(c.items, log)
    ensures Recency(Put(c, key, value, expiresAtMs).items, log + [key])
  {
    if Has(c.items, key) {
      WithoutRecency(c.items, IndexOf(c.items, key), log);
      WithoutMembers(c.items, IndexOf(c.items, key));
    }
    TouchRecency(Remove(c, key, Replaced).items, Item(key, value, expiresAtMs), log);
  }

  lemma SetRecency(c: Cache, key: string, value: Value, expiresAtMs: real, limits: Limits, log: seq<string>)
    requires WellFormed(c, limits) && limits.maxEntries >= 1 && Recency(c.items, log) && Accepts(value)
    ensures Recency(Set(c, key, value, expiresAtMs, limits.maxEntries).items, log + [key])
  {
    PutRecency(c, key, value, expiresAtMs, log);
    SetEvictsHead(c, key, value, expiresAtMs, limits);
    TailRecency(Put(c, key, value, expiresAtMs).items, log + [key]);
  }

  lemma TailRecency(items: seq<Item>, log: seq<string>)
    requires Recency(items, log) && items != []
    ensures Recency(items[1..], log)
  {
  }

  lemma RemoveRecency(c: Cache, key: string, reason: Reason, log: seq<string>)
    requires Recency(c.items, log)
    ensures Recency(Remove(c, key, reason).items, log)
  {
    if Has(c.items, key) { WithoutRecency(c.items, IndexOf(c.items, key), log); }
  }

  /** Every operation keeps the list in order of last touch. */
  lemma ApplyRecency(c: Cache, op: Op, limits: Limits, log: seq<string>)
    requires WellFormed(c, limits) && limits.maxEntries >= 1 && Recency(c.items, log)
    ensures Recency(Apply(c, op, limits).items, log + Touched(c, op))
  {
    hide Recency, WellFormed, Get, Set, Remove, Clear, PruneExpired, Accepts;
    if op.GetOp? {
      GetRecency(c, op.key, op.nowMs, limits, log);
    } else if op.SetOp? && Accepts(op.value) {
      SetRecency(c, op.key, op.value, op.nowMs + limits.ttlMs, limits, log);
    } else {
      UntouchedRecency(c, op, limits, log);
      assert log + [] == log;
    }
  }

  lemma UntouchedRecency(c: Cache, op: Op, limits: Limits, log: seq<string>)
    requires Recency(c.items, log) && !op.GetOp? && !(op.SetOp? && Accepts(op.value))
    ensures Recency(Apply(c, op, limits).items, log)
  {
    if op.DeleteOp? {
      RemoveRecency(c, op.key, Deleted, log);
    } else if op.PruneOp? {
      LiveRecency(c.items, op.nowMs, log);
    }
  }

  function TouchLog(c: Cache, ops: seq<Op>, limits: Limits): seq<string>
    decreases |ops|
  {
    if ops == [] then [] else Touched(c, ops[0]) + TouchLog(Apply(c, ops[0], limits), ops[1..], limits)
  }

  lemma {:induction false} RunRecency(c: Cache, ops: seq<Op>, limits: Limits, log: seq<string>)
    requires WellFormed(c, limits) && limits.maxEntries >= 1 && Recency(c.items, log)
    ensures WellFormed(Run(c, ops, limits), limits)
    ensures Recency(Run(c, ops, limits).items, log + TouchLog(c, ops, limits))
    decreases |ops|
  {
    if ops == [] {
      assert log + [] == log;
    } else {
      var next, touched := Apply(c, ops[0], limits), Touched(c, ops[0]);
      ApplyWellFormed(c, ops[0], limits);
      ApplyRecency(c, ops[0], limits, log);
      RunRecency(next, ops[1..], limits, log + touched);
      assert log + (touched + TouchLog(next, ops[1..], limits)) == (log + touched) + TouchLog(next, ops[1..], limits);
    }
  }

  function KeySet(items: seq<Item>): set<string> {
    set i | 0 <= i < |items| :: items[i].key
  }

  lemma {:induction false} KeySetSize(items: seq<Item>)
    requires Distinct(items)
    ensures |KeySet(items)| == |items|
  {
    if items == [] {
      assert KeySet(items) == {};
    } else {
      KeySetSize(items[1..]);
      assert items[0].key !in KeySet(items[1..]);
      assert KeySet(items) == {items[0].key} + KeySet(items[1..]) by {
        forall k | k in KeySet(items) ensures k in {items[0].key} + KeySet(items[1..]) {
          var i :| 0 <= i < |items| && items[i].key == k;
          if i > 0 { assert items[1..][i - 1].key == k; }
        }
        forall k | k in KeySet(items[1..]) ensures k in KeySet(items) {
          var i :| 0 <= i < |items| - 1 && items[1..][i].key == k;
          assert items[i + 1].key == k;
        }
      }
    }
  }

  /** The distinct keys touched after the last touch of `key`. */
  function TouchedSince(log: seq<string>, key: string): set<string> {
    set j | LastTouch(log, key) < j < |log| :: log[j]
  }

  /**
   * After any history, an operation that drops a key for capacity does so only when at least
   * `maxEntries` distinct other keys have been touched since that key's last touch.
   */
  lemma CapacityEvictsLeastRecent(ops: seq<Op>, op: Op, victim: string, limits: Limits)
    requires limits.maxEntries >= 1
    requires victim in Victims(Run(EMPTY, ops, limits), op, limits)
    ensures var log := TouchLog(EMPTY, ops, limits) + Touched(Run(EMPTY, ops, limits), op);
            LastTouch(log, victim) >= 0
            && victim !in TouchedSince(log, victim)
            && |TouchedSince(log, victim)| >= limits.maxEntries
  {
    var c := Run(EMPTY, ops, limits);
    RunRecency(EMPTY, ops, limits, []);
    var before := TouchLog(EMPTY, ops, limits);
    assert [] + before == before;
    var expiresAtMs := op.nowMs + limits.ttlMs;
    PutRecency(c, op.key, op.value, expiresAtMs, before);
    PutWellFormed(c, op.key, op.value, expiresAtMs);
    LaterKeysTouched(Put(c, op.key, op.value, expiresAtMs).items, before + [op.key]);
  }

  /** The hook reports CAPACITY for the victim and for nothing else. */
  lemma CapacityReportsVictims(c: Cache, op: Op, limits: Limits)
    requires WellFormed(c, limits) && limits.maxEntries >= 1
    ensures var d := Apply(c, op, limits);
            && c.evictions <= d.evictions
            && (set e | e in d.evictions[|c.evictions|..] && e.reason == Capacity :: e.key) == Victims(c, op, limits)
  {
    match op
    case SetOp(key, value, nowMs) =>
      if Accepts(value) {
        PutWellFormed(c, key, value, nowMs + limits.ttlMs);
        SetEvictsHead(c, key, value, nowMs + limits.ttlMs, limits);
        var p := Put(c, key, value, nowMs + limits.ttlMs);
        if |p.items| > limits.maxEntries {
          assert Apply(c, op, limits).evictions[|c.evictions|..] == [Evicted(p.items[0], Capacity)];
          assert Evicted(p.items[0], Capacity) in Apply(c, op, limits).evictions[|c.evictions|..];
        }
      }
    case ClearOp =>
      EvictedReasons(c.items, Cleared);
      assert Apply(c, op, limits).evictions[|c.evictions|..] == EvictedAll(c.items, Cleared);
    case PruneOp(nowMs) =>
      EvictedReasons(Dead(c.items, nowMs), Expired);
      assert Apply(c, op, limits).evictions[|c.evictions|..] == EvictedAll(Dead(c.items, nowMs), Expired);
    case _ =>
  }

  lemma {:induction false} EvictedReasons(items: seq<Item>, reason: Reason)
    ensures |EvictedAll(items, reason)| == |items|
    ensures forall e :: e in EvictedAll(items, reason) ==> e.reason == reason
  {
    if items != [] { EvictedReasons(items[1..], reason); }
  }

  lemma LaterKeysTouched(items: seq<Item>, log: seq<string>)
    requires items != [] && Distinct(items) && Recency(items, log)
    ensures |TouchedSince(log, items[0].key)| >= |items| - 1
    ensures LastTouch(log, items[0].key) >= 0 && items[0].key !in TouchedSince(log, items[0].key)
  {
    var rest := KeySet(items[1..]);
    KeySetSize(items[1..]);
    forall k | k in rest ensures k in TouchedSince(log, items[0].key) {
      var i :| 0 <= i < |items| - 1 && items[1..][i].key == k;
      assert items[i + 1].key == k;
      assert log[LastTouch(log, k)] == k;
    }
    SubsetSize(rest, TouchedSince(log, items[0].key));
  }

  // ---- nothing stored is lost track of -----------------------------------

  /** What an operation stores. */
  function StoredBy(op: Op): multiset<(string, Value)> {
    if op.SetOp? && |op.value.plaintextKey| == 32 then multiset{(op.key, op.value)} else multiset{}
  }

  function StoredDuring(ops: seq<Op>): multiset<(string, Value)> {
    if ops == [] then multiset{} else StoredBy(ops[0]) + StoredDuring(ops[1..])
  }

  function PairsOf(items: seq<Item>): (pairs: seq<(string, Value)>)
    ensures |pairs| == |items| && forall i :: 0 <= i < |items| ==> pairs[i] == (items[i].key, items[i].value)
  {
    if items == [] then [] else [(items[0].key, items[0].value)] + PairsOf(items[1..])
  }

  function EvictedPairs(evictions: seq<Eviction>): (pairs: seq<(string, Value)>)
    ensures |pairs| == |evictions| && forall i :: 0 <= i < |evictions| ==>
      pairs[i] == (evictions[i].key, evictions[i].value)
  {
    if evictions == [] then [] else [(evictions[0].key, evictions[0].value)] + EvictedPairs(evictions[1..])
  }

  function Held(items: seq<Item>): multiset<(string, Value)> {
    multiset(PairsOf(items))
  }

  function Reported(evictions: seq<Eviction>): multiset<(string, Value)> {
    multiset(EvictedPairs(evictions))
  }

  lemma HeldAppend(a: seq<Item>, b: seq<Item>)
    ensures Held(a + b) == Held(a) + Held(b)
  {
    assert PairsOf(a + b) == PairsOf(a) + PairsOf(b);
  }

  lemma ReportedAppend(a: seq<Eviction>, b: seq<Eviction>)
    ensures Reported(a + b) == Reported(a) + Reported(b)
  {
    assert EvictedPairs(a + b) == EvictedPairs(a) + EvictedPairs(b);
  }

  lemma HeldOne(item: Item)
    ensures Held([item]) == multiset{(item.key, item.value)}
    ensures forall reason :: Reported([Evicted(item, reason)]) == Held([item])
  {
    assert PairsOf([item]) == [(item.key, item.value)];
    forall reason ensures EvictedPairs([Evicted(item, reason)]) == PairsOf([item]) {}
  }

  lemma HeldWithout(items: seq<Item>, i: nat)
    requires i < |items|
    ensures Held(items) == Held(Without(items, i)) + Held([items[i]])
  {
    hide Held;
    HeldAppend(items[..i], items[i + 1..]);
    HeldAppend(items[..i], [items[i]]);
    HeldAppend(items[..i] + [items[i]], items[i + 1..]);
    assert items == (items[..i] + [items[i]]) + items[i + 1..];
  }

  lemma {:induction false} ReportedAll(items: seq<Item>, reason: Reason)
    ensures Reported(EvictedAll(items, reason)) == Held(items)
  {
    hide Held, Reported;
    if items == [] {
      NothingHeld();
    } else {
      ReportedAll(items[1..], reason);
      HeldOne(items[0]);
      HeldAppend([items[0]], items[1..]);
      ReportedAppend([Evicted(items[0], reason)], EvictedAll(items[1..], reason));
      assert items == [items[0]] + items[1..];
    }
  }

  lemma {:induction false} LiveAndDead(items: seq<Item>, nowMs: real)
    ensures Held(items) == Held(Live(items, nowMs)) + Held(Dead(items, nowMs))
  {
    hide Held;
    NothingHeld();
    if items != [] {
      var first, live, dead := [items[0]], Live(items[1..], nowMs), Dead(items[1..], nowMs);
      LiveAndDead(items[1..], nowMs);
      assert items == first + items[1..];
      HeldAppend(first, items[1..]);
      if IsExpired(items[0], nowMs) {
        assert Live(items, nowMs) == live && Dead(items, nowMs) == first + dead;
        HeldAppend(first, dead);
      } else {
        assert Live(items, nowMs) == first + live && Dead(items, nowMs) == dead;
        HeldAppend(first, live);
      }
    }
  }

  /** Everything in the cache or reported as evicted from it. */
  function Accounted(c: Cache): multiset<(string, Value)> {
    Held(c.items) + Reported(c.evictions)
  }

  lemma RemoveAccounts(c: Cache, key: string, reason: Reason)
    ensures Accounted(Remove(c, key, reason)) == Accounted(c)
  {
    hide IndexOf, Without, Held, Reported;
    var i := IndexOf(c.items, key);
    if i < |c.items| {
      HeldWithout(c.items, i);
      HeldOne(c.items[i]);
      ReportedAppend(c.evictions, [Evicted(c.items[i], reason)]);
    }
  }

  lemma {:induction false} EvictAccounts(c: Cache, maxEntries: nat)
    ensures Accounted(EvictToCapacity(c, maxEntries)) == Accounted(c)
    decreases |c.items|
  {
    hide Held, Reported;
    if |c.items| > maxEntries {
      assert c.items == [c.items[0]] + c.items[1..];
      HeldAppend([c.items[0]], c.items[1..]);
      var report := [Evicted(c.items[0], Capacity)];
      var next := Cache(c.items[1..], c.stats.(capacityEvictions := c.stats.capacityEvictions + 1),
        c.evictions + report);
      HeldOne(c.items[0]);
      ReportedAppend(c.evictions, report);
      EvictAccounts(next, maxEntries);
    }
  }

  lemma GetAccounts(c: Cache, key: string, nowMs: real)
    ensures Accounted(Get(c, key, nowMs).0) == Accounted(c)
  {
    hide IndexOf, Without, Held, Reported;
    var i := IndexOf(c.items, key);
    if i < |c.items| {
      var item := c.items[i];
      HeldWithout(c.items, i);
      HeldOne(item);
      ReportedAppend(c.evictions, [Evicted(item, Expired)]);
      HeldAppend(Without(c.items, i), [item]);
    }
  }

  lemma SetAccounts(c: Cache, key: string, value: Value, expiresAtMs: real, maxEntries: nat)
    requires Accepts(value)
    ensures Accounted(Set(c, key, value, expiresAtMs, maxEntries)) == Accounted(c) + multiset{(key, value)}
  {
    hide Remove, EvictToCapacity, Accepts, Held, Reported;
    var removed, item := Remove(c, key, Replaced), Item(key, value, expiresAtMs);
    RemoveAccounts(c, key, Replaced);
    HeldAppend(removed.items, [item]);
    HeldOne(item);
    EvictAccounts(Put(c, key, value, expiresAtMs), maxEntries);
  }

  /** Each operation moves entries from live to reported, or adds what it stores; none vanishes or is reported twice. */
  lemma ApplyAccounts(c: Cache, op: Op, limits: Limits)
    ensures Accounted(Apply(c, op, limits)) == Accounted(c) + StoredBy(op)
  {
    hide Get, Set, Remove, Live, Dead, EvictedAll, Held, Reported;
    match op
    case GetOp(key, nowMs) => GetAccounts(c, key, nowMs);
    case SetOp(key, value, nowMs) =>
      if Accepts(value) {
        SetAccounts(c, key, value, nowMs + limits.ttlMs, limits.maxEntries);
      } else {
        RefusedSet(c, key, value, nowMs + limits.ttlMs, limits.maxEntries);
      }
    case DeleteOp(key) => RemoveAccounts(c, key, Deleted);
    case ClearOp =>
      ReportedAll(c.items, Cleared);
      ReportedAppend(c.evictions, EvictedAll(c.items, Cleared));
      NothingHeld();
    case PruneOp(nowMs) =>
      LiveAndDead(c.items, nowMs);
      ReportedAll(Dead(c.items, nowMs), Expired);
      ReportedAppend(c.evictions, EvictedAll(Dead(c.items, nowMs), Expired));
  }

  lemma RefusedSet(c: Cache, key: string, value: Value, expiresAtMs: real, maxEntries: nat)
    requires !Accepts(value)
    ensures Set(c, key, value, expiresAtMs, maxEntries) == c
  {
  }

  lemma NothingHeld()
    ensures Held([]) == multiset{} && Reported([]) == multiset{}
  {
  }

  lemma {:induction false} RunAccounts(c: Cache, ops: seq<Op>, limits: Limits)
    ensures Accounted(Run(c, ops, limits)) == Accounted(c) + StoredDuring(ops)
    decreases |ops|
  {
    hide Apply, Accounted, StoredBy;
    if ops != [] {
      ApplyAccounts(c, ops[0], limits);
      RunAccounts(Apply(c, ops[0], limits), ops[1..], limits);
    }
  }

  /**
   * After any history, what was stored is what is still held and what the hook was told about,
   * occurrence by occurrence: every key leaves the cache exactly once, through the hook.
   */
  lemma EveryEntryAccountedFor(ops: seq<Op>, limits: Limits)
    ensures StoredDuring(ops) == Held(Run(EMPTY, ops, limits).items) + Reported(Run(EMPTY, ops, limits).evictions)
  {
    RunAccounts(EMPTY, ops, limits);
    NothingHeld();
  }

  // ---- reasons and counters ----------------------------------------------

  /** Why a report may come out of a call: expiry from a lookup or a prune, and otherwise the call's own reason. */
  predicate ReportFits(e: Eviction, op: Op) {
    match op
    case GetOp(key, _) => e.reason == Expired && e.key == key
    case SetOp(key, _, _) => (e.reason == Replaced && e.key == key) || e.reason == Capacity
    case DeleteOp(key) => e.reason == Deleted && e.key == key
    case ClearOp => e.reason == Cleared
    case PruneOp(_) => e.reason == Expired
  }

  /** Every call adds its own reports to those there were, each for a reason that fits it. */
  lemma ReportsFit(c: Cache, op: Op, limits: Limits)
    requires WellFormed(c, limits) && limits.maxEntries >= 1
    ensures var d := Apply(c, op, limits);
            c.evictions <= d.evictions && forall e :: e in d.evictions[|c.evictions|..] ==> ReportFits(e, op)
  {
    match op
    case SetOp(key, value, nowMs) =>
      if Accepts(value) {
        SetEvictsHead(c, key, value, nowMs + limits.ttlMs, limits);
        PutReports(c, key, value, nowMs + limits.ttlMs);
      }
    case ClearOp =>
      EvictedReasons(c.items, Cleared);
    case PruneOp(nowMs) =>
      EvictedReasons(Dead(c.items, nowMs), Expired);
    case _ =>
  }

  lemma PutReports(c: Cache, key: string, value: Value, expiresAtMs: real)
    ensures var p := Put(c, key, value, expiresAtMs);
            && c.evictions <= p.evictions
            && forall e :: e in p.evictions[|c.evictions|..] ==> e.key == key && e.reason == Replaced
  {
  }

  function Tally(evictions: seq<Eviction>, reason: Reason): nat {
    if evictions == [] then 0
    else (if evictions[0].reason == reason then 1 else 0) + Tally(evictions[1..], reason)
  }

  lemma {:induction false} TallyAppend(a: seq<Eviction>, b: seq<Eviction>, reason: Reason)
    ensures Tally(a + b, reason) == Tally(a, reason) + Tally(b, reason)
  {
    if a == [] {
      assert a + b == b;
    } else {
      TallyAppend(a[1..], b, reason);
      assert (a + b)[1..] == a[1..] + b;
    }
  }

  lemma {:induction false} TallyAll(items: seq<Item>, given: Reason, reason: Reason)
    ensures Tally(EvictedAll(items, given), reason) == if given == reason then |items| else 0
  {
    if items != [] {
      TallyAll(items[1..], given, reason);
      assert EvictedAll(items, given)[1..] == EvictedAll(items[1..], given);
    }
  }

  lemma TallyOne(e: Eviction, reason: Reason)
    ensures Tally([e], reason) == if e.reason == reason then 1 else 0
  {
  }

  ghost predicate Tallied(c: Cache) {
    c.stats.expirations == Tally(c.evictions, Expired) && c.stats.capacityEvictions == Tally(c.evictions, Capacity)
  }

  lemma Reporting(c: Cache, e: Eviction, d: Cache)
    requires Tallied(c) && d.evictions == c.evictions + [e]
    requires d.stats.expirations == c.stats.expirations + (if e.reason == Expired then 1 else 0)
    requires d.stats.capacityEvictions == c.stats.capacityEvictions + (if e.reason == Capacity then 1 else 0)
    ensures Tallied(d)
  {
    TallyAppend(c.evictions, [e], Expired);
    TallyAppend(c.evictions, [e], Capacity);
    TallyOne(e, Expired);
    TallyOne(e, Capacity);
  }

  lemma ReportingAll(c: Cache, items: seq<Item>, reason: Reason, d: Cache)
    requires Tallied(c) && d.evictions == c.evictions + EvictedAll(items, reason) && reason != Capacity
    requires d.stats.expirations == c.stats.expirations + (if reason == Expired then |items| else 0)
    requires d.stats.capacityEvictions == c.stats.capacityEvictions
    ensures Tallied(d)
  {
    TallyAppend(c.evictions, EvictedAll(items, reason), Expired);
    TallyAppend(c.evictions, EvictedAll(items, reason), Capacity);
    TallyAll(items, reason, Expired);
    TallyAll(items, reason, Capacity);
  }

  lemma {:induction false} EvictTallied(c: Cache, maxEntries: nat)
    requires Tallied(c)
    ensures Tallied(EvictToCapacity(c, maxEntries))
    ensures EvictToCapacity(c, maxEntries).stats.hits == c.stats.hits
    ensures EvictToCapacity(c, maxEntries).stats.misses == c.stats.misses
    decreases |c.items|
  {
    hide Tallied;
    if |c.items| > maxEntries {
      var report := Evicted(c.items[0], Capacity);
      var next := Cache(c.items[1..], c.stats.(capacityEvictions := c.stats.capacityEvictions + 1),
        c.evictions + [report]);
      Reporting(c, report, next);
      EvictTallied(next, maxEntries);
    }
  }

  lemma RemoveTallied(c: Cache, key: string, reason: Reason)
    requires Tallied(c) && reason != Expired && reason != Capacity
    ensures Tallied(Remove(c, key, reason)) && Remove(c, key, reason).stats == c.stats
  {
    hide Tallied;
    var i := IndexOf(c.items, key);
    if i < |c.items| { Reporting(c, Evicted(c.items[i], reason), Remove(c, key, reason)); }
  }

  lemma PutTallied(c: Cache, key: string, value: Value, expiresAtMs: real)
    requires Tallied(c)
    ensures Tallied(Put(c, key, value, expiresAtMs)) && Put(c, key, value, expiresAtMs).stats == c.stats
  {
    RemoveTallied(c, key, Replaced);
  }

  /** A lookup counts as a hit if it found an entry, and otherwise as a miss; no other call counts. */
  predicate Counted(c: Cache, op: Op, d: Cache) {
    var looked := op.GetOp?;
    var found := looked && Get(c, op.key, op.nowMs).1.Some?;
    && d.stats.hits == c.stats.hits + (if found then 1 else 0)
    && d.stats.misses == c.stats.misses + (if looked && !found then 1 else 0)
  }

  lemma ApplyTallied(c: Cache, op: Op, limits: Limits)
    requires Tallied(c)
    ensures Tallied(Apply(c, op, limits)) && Counted(c, op, Apply(c, op, limits))
  {
    hide Tallied, Remove, EvictToCapacity, Put, Without;
    match op
    case GetOp(key, nowMs) =>
      var i := IndexOf(c.items, key);
      if i < |c.items| && IsExpired(c.items[i], nowMs) {
        Reporting(c, Evicted(c.items[i], Expired), Apply(c, op, limits));
      } else {
        SameTallies(c, Apply(c, op, limits));
      }
    case SetOp(key, value, nowMs) =>
      if Accepts(value) {
        PutTallied(c, key, value, nowMs + limits.ttlMs);
        EvictTallied(Put(c, key, value, nowMs + limits.ttlMs), limits.maxEntries);
      }
    case DeleteOp(key) => RemoveTallied(c, key, Deleted);
    case ClearOp => ReportingAll(c, c.items, Cleared, Apply(c, op, limits));
    case PruneOp(nowMs) =>
      LiveKeeps(c.items, nowMs);
      ReportingAll(c, Dead(c.items, nowMs), Expired, Apply(c, op, limits));
  }

  lemma SameTallies(c: Cache, d: Cache)
    requires Tallied(c) && d.evictions == c.evictions
    requires d.stats.expirations == c.stats.expirations && d.stats.capacityEvictions == c.stats.capacityEvictions
    ensures Tallied(d)
  {
  }

  /** How many lookups of a history found an entry, and how many there were. */
  function Hits(c: Cache, ops: seq<Op>, limits: Limits): nat
    decreases |ops|
  {
    if ops == [] then 0
    else
      (if ops[0].GetOp? && Get(c, ops[0].key, ops[0].nowMs).1.Some? then 1 else 0)
      + Hits(Apply(c, ops[0], limits), ops[1..], limits)
  }

  function Lookups(ops: seq<Op>): nat {
    if ops == [] then 0 else (if ops[0].GetOp? then 1 else 0) + Lookups(ops[1..])
  }

  lemma {:induction false} RunTallied(c: Cache, ops: seq<Op>, limits: Limits)
    requires Tallied(c)
    ensures var d := Run(c, ops, limits);
            && Tallied(d) && d.stats.hits == c.stats.hits + Hits(c, ops, limits)
            && d.stats.hits + d.stats.misses == c.stats.hits + c.stats.misses + Lookups(ops)
    decreases |ops|
  {
    hide Apply, Tallied, Get;
    if ops != [] {
      ApplyTallied(c, ops[0], limits);
      RunTallied(Apply(c, ops[0], limits), ops[1..], limits);
    }
  }

  /**
   * The counters tell the history: hits are the lookups that found an entry and misses the others,
   * and every expiry and every eviction for capacity is counted as often as it is reported.
   */
  lemma CountersTellHistory(ops: seq<Op>, limits: Limits)
    ensures var c := Run(EMPTY, ops, limits);
            && c.stats.hits == Hits(EMPTY, ops, limits)
            && c.stats.hits + c.stats.misses == Lookups(ops)
            && c.stats.expirations == Tally(c.evictions, Expired)
            && c.stats.capacityEvictions == Tally(c.evictions, Capacity)
  {
    RunTallied(EMPTY, ops, limits);
  }
}
