/** The data-key cache (packages/crypto/src/data-key-cache.ts), with its buffers on the heap. */
module DataKeyCaches {
  import opened Basics
  import opened LruModel

  /** What callers pass in and get back: buffers by reference. */
  datatype CacheEntry = CacheEntry(plaintextKey: array<byte>, encryptedDataKey: array<byte>, keyId: string)

  datatype StoredEntry = StoredEntry(material: CacheEntry, expiresAtMs: real)

  datatype CacheError = RangeError

  ghost predicate Holds(entry: CacheEntry, value: Value)
    reads entry.plaintextKey, entry.encryptedDataKey
  {
    value == Value(entry.plaintextKey[..], entry.encryptedDataKey[..], entry.keyId)
  }

  ghost predicate AllZero(buffer: array<byte>)
    reads buffer
  {
    forall i :: 0 <= i < buffer.Length ==> buffer[i] == 0
  }

  /** What the cache uses a buffer for; a retired key buffer has been zeroised for good. */
  datatype Role = KeyOf(key: string) | WrappedOf(key: string) | Retired

  /** The position of `key`, or the length. */
  function SlotOf(order: seq<string>, key: string): (i: nat)
    ensures i <= |order|
    ensures i < |order| ==> order[i] == key
    ensures forall j :: 0 <= j < i ==> order[j] != key
  {
    if order == [] || order[0] == key then 0 else 1 + SlotOf(order[1..], key)
  }

  /** Each entry has its own buffers: a buffer's role names the one entry that may use it. */
  ghost predicate Separated(entries: map<string, StoredEntry>, roles: map<array<byte>, Role>) {
    && (forall k :: k in entries ==>
          && entries[k].material.plaintextKey in roles && roles[entries[k].material.plaintextKey] == KeyOf(k)
          && entries[k].material.encryptedDataKey in roles
            && roles[entries[k].material.encryptedDataKey] == WrappedOf(k))
    && (forall b :: b in roles && roles[b].KeyOf? ==>
          roles[b].key in entries && entries[roles[b].key].material.plaintextKey == b)
  }

  /** Every buffer that had a role still has one; it changes only by being retired. */
  ghost predicate Kept(before: map<array<byte>, Role>, after: map<array<byte>, Role>) {
    forall b :: b in before ==> b in after && (after[b] == before[b] || after[b].Retired?)
  }

  lemma KeptTransitive(a: map<array<byte>, Role>, b: map<array<byte>, Role>, c: map<array<byte>, Role>)
    requires Kept(a, b) && Kept(b, c)
    ensures Kept(a, c)
  {
  }

  lemma KeptReflexive(a: map<array<byte>, Role>)
    ensures Kept(a, a)
  {
  }

  lemma SeparatedRole(entries: map<string, StoredEntry>, roles: map<array<byte>, Role>, key: string)
    requires Separated(entries, roles) && key in entries
    ensures entries[key].material.plaintextKey in roles && roles[entries[key].material.plaintextKey] == KeyOf(key)
    ensures entries[key].material.encryptedDataKey in roles
      && roles[entries[key].material.encryptedDataKey] == WrappedOf(key)
  {
  }

  lemma SeparatedAfterRemoval(entries: map<string, StoredEntry>, roles: map<array<byte>, Role>, key: string)
    requires Separated(entries, roles) && key in entries
    ensures Separated(entries - {key}, roles - {entries[key].material.plaintextKey})
  {
  }

  lemma SeparatedWithRetired(entries: map<string, StoredEntry>, roles: map<array<byte>, Role>, buffer: array<byte>)
    requires Separated(entries, roles) && buffer !in roles
    ensures Separated(entries, roles[buffer := Retired])
  {
  }

  lemma BuffersHaveRoles(entries: map<string, StoredEntry>, roles: map<array<byte>, Role>)
    requires Separated(entries, roles)
    ensures forall k :: k in entries ==>
              entries[k].material.plaintextKey in roles && entries[k].material.encryptedDataKey in roles
  {
  }

  /** A JavaScript Map: its keys in insertion order, and the entries under them. */
  datatype OrderedMap = OrderedMap(order: seq<string>, at: map<string, StoredEntry>) {
    function Without(key: string): OrderedMap
      requires SlotOf(order, key) < |order|
    {
      var i := SlotOf(order, key);
      OrderedMap(order[..i] + order[i + 1..], at - {key})
    }

    /** Insertion of a key that is not present. */
    function With(key: string, entry: StoredEntry): OrderedMap {
      OrderedMap(order + [key], at[key := entry])
    }
  }

  /** The state on values: the item list, the items by key, the hook's calls, and the buffers' roles. */
  datatype View = View(
    items: seq<Item>,
    values: map<string, Item>,
    evictions: seq<Eviction>,
    roles: map<array<byte>, Role>
  ) {
    function Unlinked(key: string, buffer: array<byte>): View
      requires Has(items, key)
    {
      View(LruModel.Without(items, IndexOf(items, key)), values - {key}, evictions, roles - {buffer})
    }

    function Destroyed(eviction: Eviction, buffer: array<byte>): View {
      View(items, values, evictions + [eviction], roles[buffer := Retired])
    }

    function Linked(item: Item, material: CacheEntry): View {
      View(
        items + [item], values[item.key := item], evictions,
        roles[material.plaintextKey := KeyOf(item.key)][material.encryptedDataKey := WrappedOf(item.key)])
    }
  }

  ghost predicate Ordered(order: seq<string>, values: map<string, Item>, items: seq<Item>) {
    && |order| == |items|
    && forall i :: 0 <= i < |items| ==> order[i] == items[i].key && order[i] in values && values[order[i]] == items[i]
  }

  ghost predicate Covered(values: map<string, Item>, items: seq<Item>) {
    forall k :: k in values ==> Has(items, k)
  }

  /** The map and the view list the same keys in the same order. */
  ghost predicate Listed(entries: OrderedMap, view: View) {
    && Ordered(entries.order, view.values, view.items)
    && Covered(view.values, view.items)
    && entries.at.Keys == view.values.Keys
    && Distinct(view.items)
  }

  lemma ListedLookup(entries: OrderedMap, view: View, key: string)
    requires Listed(entries, view)
    ensures SlotOf(entries.order, key) == IndexOf(view.items, key)
    ensures key in entries.at <==> SlotOf(entries.order, key) < |entries.order|
    ensures key in entries.at <==> Has(view.items, key)
    ensures key in entries.at ==> key in view.values && view.values[key] == view.items[IndexOf(view.items, key)]
  {
  }

  lemma ListedWithoutHook(entries: OrderedMap, view: View, evictions: seq<Eviction>, roles: map<array<byte>, Role>)
    requires Listed(entries, view)
    ensures Listed(entries, view.(evictions := evictions, roles := roles))
  {
  }

  lemma WithoutCovered(values: map<string, Item>, items: seq<Item>, i: nat)
    requires Covered(values, items) && i < |items|
    ensures Covered(values - {items[i].key}, Without(items, i))
  {
    var w := Without(items, i);
    forall k | k in values && k != items[i].key ensures Has(w, k) {
      var j := IndexOf(items, k);
      assert w[if j < i then j else j - 1].key == k;
    }
  }

  lemma WithoutOrdered(order: seq<string>, values: map<string, Item>, items: seq<Item>, i: nat)
    requires Distinct(items) && Ordered(order, values, items) && i < |items|
    ensures Ordered(order[..i] + order[i + 1..], values - {items[i].key}, Without(items, i))
  {
    var order', items' := order[..i] + order[i + 1..], Without(items, i);
    forall j | 0 <= j < |items'|
      ensures order'[j] == order[if j < i then j else j + 1] && items'[j] == items[if j < i then j else j + 1]
    {
    }
  }

  lemma ListedAfterRemoval(entries: OrderedMap, view: View, key: string)
    requires Listed(entries, view) && key in entries.at
    ensures Has(view.items, key) && SlotOf(entries.order, key) < |entries.order|
    ensures Listed(entries.Without(key), view.Unlinked(key, entries.at[key].material.plaintextKey))
  {
    hide Ordered, Covered, Distinct, IndexOf, SlotOf;
    ListedLookup(entries, view, key);
    var i := IndexOf(view.items, key);
    WithoutDistinct(view.items, i);
    WithoutCovered(view.values, view.items, i);
    WithoutOrdered(entries.order, view.values, view.items, i);
  }

  lemma AppendCovered(values: map<string, Item>, items: seq<Item>, item: Item)
    requires Covered(values, items)
    ensures Covered(values[item.key := item], items + [item])
  {
    var w := items + [item];
    forall k | k in values[item.key := item] ensures Has(w, k) {
      var j := if k == item.key then |items| else IndexOf(items, k);
      assert w[j].key == k;
    }
  }

  lemma AppendOrdered(order: seq<string>, values: map<string, Item>, items: seq<Item>, item: Item)
    requires Ordered(order, values, items) && IndexOf(items, item.key) == |items|
    ensures Ordered(order + [item.key], values[item.key := item], items + [item])
  {
  }

  lemma AppendDistinct(items: seq<Item>, item: Item)
    requires Distinct(items) && IndexOf(items, item.key) == |items|
    ensures Distinct(items + [item])
  {
  }

  lemma ListedAfterAppend(entries: OrderedMap, view: View, item: Item, entry: StoredEntry)
    requires Listed(entries, view) && item.key !in entries.at
    ensures Listed(entries.With(item.key, entry), view.Linked(item, entry.material))
  {
    hide Ordered, Covered, Distinct, IndexOf;
    ListedLookup(entries, view, item.key);
    AppendCovered(view.values, view.items, item);
    AppendOrdered(entries.order, view.values, view.items, item);
    AppendDistinct(view.items, item);
  }

  lemma ListedAfterTouch(entries: OrderedMap, view: View, key: string)
    requires Listed(entries, view) && key in entries.at
    ensures Has(view.items, key) && SlotOf(entries.order, key) < |entries.order| && key in view.values
    ensures Listed(
              entries.Without(key).With(key, entries.at[key]),
              view.(items := Without(view.items, IndexOf(view.items, key)) + [view.values[key]]))
  {
    hide Listed, IndexOf, SlotOf, Distinct;
    ListedAfterRemoval(entries, view, key);
    ListedLookup(entries, view, key);
    var entry, item := entries.at[key], view.values[key];
    var removed := view.Unlinked(key, entry.material.plaintextKey);
    ListedAfterAppend(entries.Without(key), removed, item, entry);
    assert (view.values - {key})[key := item] == view.values;
    var linked := removed.Linked(item, entry.material);
    ListedWithoutHook(entries.Without(key).With(key, entry), linked, view.evictions, view.roles);
    assert linked.(evictions := view.evictions, roles := view.roles) == view.(items := removed.items + [item]);
  }

  lemma SeparatedAfterAppend(entries: map<string, StoredEntry>, roles: map<array<byte>, Role>, key: string,
    entry: StoredEntry)
    requires Separated(entries, roles) && key !in entries
    requires entry.material.plaintextKey !in roles && entry.material.encryptedDataKey !in roles
    requires entry.material.plaintextKey != entry.material.encryptedDataKey
    ensures Separated(
              entries[key := entry],
              roles[entry.material.plaintextKey := KeyOf(key)][entry.material.encryptedDataKey := WrappedOf(key)])
  {
  }

  lemma GetMisses(c: Cache, key: string, nowMs: real)
    requires !Has(c.items, key)
    ensures LruModel.Get(c, key, nowMs) == (c.(stats := c.stats.(misses := c.stats.misses + 1)), None)
  {
  }

  lemma GetExpires(c: Cache, key: string, nowMs: real)
    requires Has(c.items, key) && nowMs >= c.items[IndexOf(c.items, key)].expiresAtMs
    ensures LruModel.Get(c, key, nowMs) ==
            (Cache(
               Without(c.items, IndexOf(c.items, key)),
               c.stats.(misses := c.stats.misses + 1, expirations := c.stats.expirations + 1),
               c.evictions + [Evicted(c.items[IndexOf(c.items, key)], Expired)]),
             None)
  {
  }

  lemma GetHits(c: Cache, key: string, nowMs: real)
    requires Has(c.items, key) && nowMs < c.items[IndexOf(c.items, key)].expiresAtMs
    ensures var item := c.items[IndexOf(c.items, key)];
            LruModel.Get(c, key, nowMs) ==
            (Cache(
               Without(c.items, IndexOf(c.items, key)) + [item],
               c.stats.(hits := c.stats.hits + 1),
               c.evictions),
             Some(item.value))
  {
  }

  lemma IndexAt(items: seq<Item>, n: nat)
    requires Distinct(items) && n < |items|
    ensures IndexOf(items, items[n].key) == n
  {
  }

  lemma EvictStep(c: Cache, maxEntries: nat)
    requires |c.items| > maxEntries
    ensures EvictToCapacity(c, maxEntries) ==
            EvictToCapacity(
              Cache(c.items[1..], c.stats.(capacityEvictions := c.stats.capacityEvictions + 1),
                    c.evictions + [Evicted(c.items[0], Capacity)]),
              maxEntries)
  {
  }

  lemma EvictDone(c: Cache, maxEntries: nat)
    requires |c.items| <= maxEntries
    ensures EvictToCapacity(c, maxEntries) == c
  {
  }

  /** One entry of the prune loop: kept if unexpired, reported and counted otherwise. */
  lemma PruneAdvance(all: seq<Item>, k: nat, kept: seq<Item>, evictions: seq<Eviction>, nowMs: real)
    requires k < |all|
    ensures var rest, next := all[k..], all[k + 1..];
            var report := [Evicted(all[k], Expired)];
            if IsExpired(all[k], nowMs) then
              && Live(rest, nowMs) == Live(next, nowMs)
              && evictions + EvictedAll(Dead(rest, nowMs), Expired)
                == (evictions + report) + EvictedAll(Dead(next, nowMs), Expired)
              && |Dead(rest, nowMs)| == 1 + |Dead(next, nowMs)|
            else
              && kept + Live(rest, nowMs) == (kept + [all[k]]) + Live(next, nowMs)
              && Dead(rest, nowMs) == Dead(next, nowMs)
  {
    assert all[k..][1..] == all[k + 1..] && all[k..][0] == all[k];
    if IsExpired(all[k], nowMs) {
      assert Dead(all[k..], nowMs)[1..] == Dead(all[k + 1..], nowMs);
    }
  }

  lemma DropNext(kept: seq<Item>, all: seq<Item>, k: nat)
    requires k < |all|
    ensures var items := kept + all[k..];
            && items[|kept|] == all[k]
            && items[..|kept|] + items[|kept| + 1..] == kept + all[k + 1..]
            && items == (kept + [all[k]]) + all[k + 1..]
  {
  }

  lemma PruneEnds(all: seq<Item>, nowMs: real)
    ensures all[|all|..] == [] && Live(all[|all|..], nowMs) == [] && Dead(all[|all|..], nowMs) == []
    ensures EvictedAll([], Expired) == []
  {
  }

  lemma ListedSize(entries: OrderedMap, view: View)
    requires Listed(entries, view)
    ensures |entries.order| == |view.items|
  {
  }

  /** The first key in the map is the head of the item list. */
  lemma ListedOldest(entries: OrderedMap, view: View)
    requires Listed(entries, view) && |entries.order| > 0
    ensures var key := entries.order[0];
            && key in entries.at && |view.items| > 0 && view.items[0].key == key && IndexOf(view.items, key) == 0
            && Without(view.items, 0) == view.items[1..]
            && SlotOf(entries.order, key) == 0 && entries.Without(key).order == entries.order[1..]
  {
    hide Covered, Distinct;
    ListedLookup(entries, view, entries.order[0]);
    OrderedHead(entries.order, view.values, view.items);
  }

  lemma OrderedHead(order: seq<string>, values: map<string, Item>, items: seq<Item>)
    requires Ordered(order, values, items) && |order| > 0
    ensures |items| > 0 && items[0].key == order[0] && IndexOf(items, order[0]) == 0 && SlotOf(order, order[0]) == 0
    ensures Without(items, 0) == items[1..] && order[..0] + order[1..] == order[1..]
  {
  }

  lemma ListedEmpty(entries: OrderedMap, view: View)
    requires Listed(entries, view) && view.items == []
    ensures entries.at == map[]
  {
    forall k | k in entries.at ensures false { ListedLookup(entries, view, k); }
  }

  lemma SetWellFormed(c: Cache, key: string, value: Value, nowMs: real, limits: Limits)
    requires WellFormed(c, limits) && limits.maxEntries >= 1
    ensures WellFormed(LruModel.Set(c, key, value, nowMs + limits.ttlMs, limits.maxEntries), limits)
  {
    ApplyWellFormed(c, SetOp(key, value, nowMs), limits);
  }

  lemma RemoveWellFormed(c: Cache, key: string, limits: Limits)
    requires WellFormed(c, limits) && limits.maxEntries >= 1
    ensures WellFormed(Remove(c, key, Deleted), limits)
  {
    ApplyWellFormed(c, DeleteOp(key), limits);
  }

  lemma PruneWellFormed(c: Cache, nowMs: real, limits: Limits)
    requires WellFormed(c, limits) && limits.maxEntries >= 1
    ensures WellFormed(LruModel.PruneExpired(c, nowMs), limits)
  {
    ApplyWellFormed(c, PruneOp(nowMs), limits);
  }

  lemma GetWellFormed(c: Cache, key: string, nowMs: real, limits: Limits)
    requires WellFormed(c, limits) && limits.maxEntries >= 1
    ensures WellFormed(LruModel.Get(c, key, nowMs).0, limits)
  {
    ApplyWellFormed(c, GetOp(key, nowMs), limits);
  }

  /** `Buffer.from(buffer)` */
  method Copy(buffer: array<byte>) returns (copy: array<byte>)
    ensures fresh(copy) && copy[..] == buffer[..]
  {
    copy := new byte[buffer.Length](_ => 0);
    forall i | 0 <= i < buffer.Length {
      copy[i] := buffer[i];
    }
  }

  method CopyEntry(entry: CacheEntry) returns (copy: CacheEntry)
    ensures fresh(copy.plaintextKey) && fresh(copy.encryptedDataKey) && copy.plaintextKey != copy.encryptedDataKey
    ensures copy.plaintextKey[..] == entry.plaintextKey[..] && copy.encryptedDataKey[..] == entry.encryptedDataKey[..]
    ensures copy.keyId == entry.keyId
  {
    var plaintextKey := Copy(entry.plaintextKey);
    var encryptedDataKey := Copy(entry.encryptedDataKey);
    copy := CacheEntry(plaintextKey, encryptedDataKey, entry.keyId);
  }

  /** `buffer.fill(0)` */
  method Zeroise(buffer: array<byte>)
    modifies buffer
    ensures AllZero(buffer)
  {
    forall i | 0 <= i < buffer.Length {
      buffer[i] := 0;
    }
  }

  class DataKeyCache {
    const maxEntries: nat
    const ttlMs: real

    /** The insertion-ordered map, and the four counters. */
    var entries: OrderedMap
    var counters: Stats

    /** The same state on values, and every buffer the cache ever made with what it is for now. */
    ghost var view: View

    ghost function Model(): Cache
      reads this
    {
      Cache(view.items, counters, view.evictions)
    }

    ghost function Bounds(): Limits {
      Limits(maxEntries, ttlMs)
    }

    /** Every buffer the cache ever made and still answers for. */
    ghost function Buffers(): set<array<byte>>
      reads this`view
    {
      view.roles.Keys
    }

    /** Every stored entry holds its value, and every retired key buffer is all zero. */
    ghost predicate Represents()
      reads this`entries, this`view, Buffers()
      requires Separated(entries.at, view.roles) && entries.at.Keys == view.values.Keys
    {
      && (forall k :: k in entries.at ==>
            entries.at[k].expiresAtMs == view.values[k].expiresAtMs
              && Holds(entries.at[k].material, view.values[k].value))
      && (forall b :: b in view.roles && view.roles[b].Retired? ==> AllZero(b))
    }

    /**
     * Live entries hold pairwise distinct buffers with the stored contents; every key buffer the
     * cache ever made is live, or all zero and no longer in use.
     */
    ghost predicate Consistent()
      reads this`entries, this`view, Buffers()
    {
      && Separated(entries.at, view.roles)
      && entries.at.Keys == view.values.Keys
      && Listed(entries, view)
      && Represents()
    }

    ghost predicate Valid()
      reads this, Buffers()
    {
      Consistent() && maxEntries >= 1 && WellFormed(Model(), Bounds())
    }

    /** No two live entries share a buffer, and a live key buffer is not a retired one. */
    lemma LiveBuffersDistinct(k: string, l: string)
      requires Consistent() && k in entries.at && l in entries.at
      ensures entries.at[k].material.plaintextKey != entries.at[l].material.encryptedDataKey
      ensures k != l ==>
                && entries.at[k].material.plaintextKey != entries.at[l].material.plaintextKey
                && entries.at[k].material.encryptedDataKey != entries.at[l].material.encryptedDataKey
      ensures entries.at[k].material.plaintextKey in view.roles
        && !view.roles[entries.at[k].material.plaintextKey].Retired?
    {
      SeparatedRole(entries.at, view.roles, k);
      SeparatedRole(entries.at, view.roles, l);
    }

    /** A key buffer the cache ever made is the live one of its entry, holding what was stored, or it is all zero. */
    lemma KeyBufferLiveOrErased(b: array<byte>)
      requires Consistent() && b in view.roles && !view.roles[b].WrappedOf?
      ensures || AllZero(b)
              || (&& view.roles[b].KeyOf? && Has(view.items, view.roles[b].key)
                  && b[..] == view.items[IndexOf(view.items, view.roles[b].key)].value.plaintextKey)
    {
      if view.roles[b].KeyOf? { LookUp(view.roles[b].key); }
    }

    constructor (maxEntries: nat, ttlMs: real)
      requires maxEntries >= 1 && ttlMs > 0.0
      ensures Valid() && Model() == EMPTY && Buffers() == {}
      ensures this.maxEntries == maxEntries && this.ttlMs == ttlMs
    {
      this.maxEntries, this.ttlMs := maxEntries, ttlMs;
      entries, counters := OrderedMap([], map[]), Stats(0, 0, 0, 0);
      view := View([], map[], [], map[]);
    }

    /**
     * The checked constructor: a bound that is not a positive integer, or a bad TTL, is refused; both have
     * defaults.
     */
    static method Create(maxEntries: Option<Num>, ttlMs: Option<Num>) returns (r: Result<DataKeyCache, CacheError>)
      ensures var bound := OrDefault(maxEntries, DEFAULT_MAX_CACHED_DATA_KEYS);
              var ttl := OrDefault(ttlMs, DEFAULT_DATA_KEY_TTL_MS);
          && (r.Success? <==>
                  && bound.Finite? && Integral(bound.value) && bound.value >= 1.0
                  && ttl.Finite? && ttl.value > 0.0)
            && (r.Success? ==>
                  && fresh(r.value) && r.value.Buffers() == {} && r.value.Valid() && r.value.Model() == EMPTY
                  && r.value.maxEntries as real == bound.value && r.value.ttlMs == ttl.value)
        ensures maxEntries.None? && ttlMs.None? ==> r.Success? && r.value.maxEntries == 256 && r.value.ttlMs == 300000.0
    {
      var bound := OrDefault(maxEntries, DEFAULT_MAX_CACHED_DATA_KEYS);
      var ttl := OrDefault(ttlMs, DEFAULT_DATA_KEY_TTL_MS);
      if bound.NonFinite? || !Integral(bound.value) || bound.value < 1.0 {
        return Failure(RangeError);
      }
      if ttl.NonFinite? || ttl.value <= 0.0 {
        return Failure(RangeError);
      }
      var cache := new DataKeyCache(bound.value.Floor, ttl.value);
      return Success(cache);
    }

    /** `option ?? fallback` */
    static function OrDefault(option: Option<Num>, fallback: real): Num {
      if option.Some? then option.value else Finite(fallback)
    }

    /** `this.entries.delete(key)` */
    method Unlink(key: string)
      requires Consistent() && key in entries.at
      modifies this`entries, this`view
      ensures Consistent()
      ensures entries == old(entries).Without(key)
      ensures view == old(view).Unlinked(key, old(entries).at[key].material.plaintextKey)
    {
      hide Listed, Separated;
      ListedAfterRemoval(entries, view, key);
      SeparatedAfterRemoval(entries.at, view.roles, key);
      view := view.Unlinked(key, entries.at[key].material.plaintextKey);
      entries := entries.Without(key);
    }

    /** Calls the hook with the entry intact, then zeroises its key. */
    method Destroy(key: string, material: CacheEntry, reason: Reason)
      requires Consistent() && material.plaintextKey !in view.roles
      modifies this`view, material.plaintextKey
      ensures Consistent() && AllZero(material.plaintextKey)
      ensures view == old(view).Destroyed(
                Eviction(key, Value(old(material.plaintextKey[..]), old(material.encryptedDataKey[..]),
                  material.keyId), reason),
                material.plaintextKey)
    {
      hide Listed, Separated;
      SeparatedWithRetired(entries.at, view.roles, material.plaintextKey);
      BuffersHaveRoles(entries.at, view.roles);
      ghost var eviction :=
        Eviction(key, Value(material.plaintextKey[..], material.encryptedDataKey[..], material.keyId), reason);
      ListedWithoutHook(entries, view, view.evictions + [eviction], view.roles[material.plaintextKey := Retired]);
      view := view.Destroyed(eviction, material.plaintextKey);
      Zeroise(material.plaintextKey);
    }

    /** `this.entries.set(key, entry)` for a key that is not present. */
    method Link(key: string, entry: StoredEntry, ghost value: Value)
      requires Consistent() && key !in entries.at && Holds(entry.material, value)
      requires entry.material.plaintextKey !in view.roles && entry.material.encryptedDataKey !in view.roles
      requires entry.material.plaintextKey != entry.material.encryptedDataKey
      modifies this`entries, this`view
      ensures Consistent()
      ensures entries == old(entries).With(key, entry)
      ensures view == old(view).Linked(Item(key, value, entry.expiresAtMs), entry.material)
    {
      hide Listed, Separated, Distinct, IndexOf, SlotOf;
      ListedAfterAppend(entries, view, Item(key, value, entry.expiresAtMs), entry);
      SeparatedAfterAppend(entries.at, view.roles, key, entry);
      view := view.Linked(Item(key, value, entry.expiresAtMs), entry.material);
      entries := entries.With(key, entry);
    }

    /** Removal as every path does it: out of the map, hook, zeroise. */
    method RemoveEntry(key: string, reason: Reason)
      requires Consistent() && key in entries.at
      modifies this`entries, this`view, entries.at[key].material.plaintextKey
      ensures Consistent() && Buffers() == old(Buffers()) && Kept(old(view).roles, view.roles)
      ensures AllZero(old(entries).at[key].material.plaintextKey)
      ensures entries == old(entries).Without(key)
      ensures Model() == Remove(old(Model()), key, reason)
      ensures old(entries).at[key].material.plaintextKey in view.roles
      ensures view.roles[old(entries).at[key].material.plaintextKey].Retired?
    {
      hide Separated;
      ListedLookup(entries, view, key);
      hide Listed;
      var entry := entries.at[key];
      assert entry.material.plaintextKey in view.roles by { SeparatedRole(entries.at, view.roles, key); }
      Unlink(key);
      Destroy(key, entry.material, reason);
    }

    /** What a map lookup finds. */
    lemma LookUp(key: string)
      requires Consistent()
      ensures key in entries.at <==> Has(view.items, key)
      ensures key in entries.at ==>
                var item := view.items[IndexOf(view.items, key)];
                && key in view.values && view.values[key] == item
                && entries.at[key].expiresAtMs == item.expiresAtMs
                && Holds(entries.at[key].material, item.value)
                && entries.at[key].material.plaintextKey in view.roles
                && entries.at[key].material.encryptedDataKey in view.roles
    {
      ListedLookup(entries, view, key);
    }

    /** The counters are no part of the map's invariant. */
    method Tally(c: Stats)
      requires Consistent()
      modifies this`counters
      ensures Consistent() && counters == c
    {
      counters := c;
    }

    method Miss(key: string, ghost nowMs: real)
      requires Valid() && key !in entries.at
      modifies this`counters
      ensures Valid()
      ensures Model() == LruModel.Get(old(Model()), key, nowMs).0 && LruModel.Get(old(Model()), key, nowMs).1.None?
    {
      hide Consistent, WellFormed, IndexOf, LruModel.Get;
      LookUp(key);
      GetMisses(Model(), key, nowMs);
      GetWellFormed(Model(), key, nowMs, Bounds());
      Tally(counters.(misses := counters.misses + 1));
      assert Model() == LruModel.Get(old(Model()), key, nowMs).0;
    }

    /** The TTL has passed: the entry goes, counted as an expiration and a miss. */
    method Expire(key: string, ghost nowMs: real)
      requires Valid() && key in entries.at && nowMs >= entries.at[key].expiresAtMs
      modifies this, Buffers()
      ensures Valid() && Buffers() == old(Buffers()) && Kept(old(view).roles, view.roles)
      ensures Model() == LruModel.Get(old(Model()), key, nowMs).0 && LruModel.Get(old(Model()), key, nowMs).1.None?
    {
      hide Consistent, WellFormed, IndexOf, SlotOf, Without, LruModel.Get;
      LookUp(key);
      GetExpires(Model(), key, nowMs);
      GetWellFormed(Model(), key, nowMs, Bounds());
      RemoveEntry(key, Expired);
      Tally(counters.(expirations := counters.expirations + 1, misses := counters.misses + 1));
    }

    /** A hit refreshes recency and leaves the expiry alone. */
    method Hit(key: string, ghost nowMs: real) returns (entry: CacheEntry)
      requires Valid() && key in entries.at && nowMs < entries.at[key].expiresAtMs
      modifies this
      ensures Valid() && view.roles == old(view).roles
      ensures Model() == LruModel.Get(old(Model()), key, nowMs).0
      ensures LruModel.Get(old(Model()), key, nowMs).1.Some?
        && Holds(entry, LruModel.Get(old(Model()), key, nowMs).1.value)
      ensures Lends(key, entry)
    {
      hide Consistent, WellFormed, IndexOf, SlotOf, Has, Without, LruModel.Get;
      LookUp(key);
      GetHits(Model(), key, nowMs);
      GetWellFormed(Model(), key, nowMs, Bounds());
      entry := entries.at[key].material;
      Touch(key);
      Tally(counters.(hits := counters.hits + 1));
      assert Model() == LruModel.Get(old(Model()), key, nowMs).0;
    }

    /** The returned buffers are the cache's own. */
    method Get(key: string, nowMs: real) returns (r: Option<CacheEntry>)
      requires Valid()
      modifies this, Buffers()
      ensures Valid() && Buffers() == old(Buffers()) && Kept(old(view).roles, view.roles)
      ensures Model() == LruModel.Get(old(Model()), key, nowMs).0
      ensures match LruModel.Get(old(Model()), key, nowMs).1
              case None => r.None?
              case Some(value) => r.Some? && Holds(r.value, value) && Lends(key, r.value)
    {
      hide Valid, LruModel.Get;
      if key !in entries.at {
        Miss(key, nowMs);
        return None;
      }
      if nowMs >= entries.at[key].expiresAtMs {
        Expire(key, nowMs);
        return None;
      }
      var entry := Hit(key, nowMs);
      return Some(entry);
    }

    /** Deletes and re-inserts an entry, refreshing its recency. */
    method Touch(key: string)
      requires Consistent() && key in entries.at
      modifies this`entries, this`view
      ensures Consistent()
      ensures entries.at == old(entries).at && view.values == old(view).values
      ensures view.roles == old(view).roles && view.evictions == old(view).evictions
      ensures Has(old(view).items, key)
      ensures view.items == Without(old(view).items, IndexOf(old(view).items, key))
        + [old(view).items[IndexOf(old(view).items, key)]]
    {
      hide Separated, Listed, Distinct, IndexOf, SlotOf;
      ListedLookup(entries, view, key);
      ListedAfterTouch(entries, view, key);
      var entry := entries.at[key];
      assert entries.Without(key).With(key, entry).at == entries.at;
      view := view.(items := Without(view.items, IndexOf(view.items, key)) + [view.values[key]]);
      entries := entries.Without(key).With(key, entry);
    }

    /** The entry's buffers are the ones the cache has under `key`. */
    ghost predicate Lends(key: string, entry: CacheEntry)
      reads this
    {
      key in entries.at && entries.at[key].material == entry
    }

    /** What a buffer holds once `wiped` has been zeroised. */
    static ghost function AfterWipe(buffer: array<byte>, wiped: Option<array<byte>>): Bytes
      reads buffer
    {
      if wiped == Some(buffer) then Zeros(buffer.Length) else buffer[..]
    }

    /** The key buffer that a set under `key` destroys. */
    ghost function ReplacedBuffer(key: string): Option<array<byte>>
      reads this
    {
      if key in entries.at then Some(entries.at[key].material.plaintextKey) else None
    }

    /** What a set stores: the caller's bytes, copied after the replaced entry has been destroyed. */
    ghost function Stored(key: string, entry: CacheEntry): Value
      reads this, entry.plaintextKey, entry.encryptedDataKey
    {
      var wiped := ReplacedBuffer(key);
      Value(AfterWipe(entry.plaintextKey, wiped), AfterWipe(entry.encryptedDataKey, wiped), entry.keyId)
    }

    lemma WipeKeepsExactly(buffer: array<byte>, wiped: Option<array<byte>>)
      ensures AfterWipe(buffer, wiped) == buffer[..] <==> wiped != Some(buffer) || AllZero(buffer)
    {
      if wiped == Some(buffer) {
        if AllZero(buffer) {
          assert Zeros(buffer.Length) == buffer[..];
        } else {
          var i :| 0 <= i < buffer.Length && buffer[i] != 0;
          assert Zeros(buffer.Length)[i] != buffer[..][i];
        }
      }
    }

    /**
     * A set stores the caller's bytes exactly if neither of the caller's two buffers is the key
     * buffer that the set destroys, or what it destroys was all zero already.
     */
    lemma StoredIsCopyExactly(key: string, entry: CacheEntry)
      ensures Stored(key, entry) == Value(entry.plaintextKey[..], entry.encryptedDataKey[..], entry.keyId)
              <==> && (ReplacedBuffer(key) != Some(entry.plaintextKey) || AllZero(entry.plaintextKey))
                   && (ReplacedBuffer(key) != Some(entry.encryptedDataKey) || AllZero(entry.encryptedDataKey))
    {
      WipeKeepsExactly(entry.plaintextKey, ReplacedBuffer(key));
      WipeKeepsExactly(entry.encryptedDataKey, ReplacedBuffer(key));
    }

    lemma StoredLength(key: string, entry: CacheEntry)
      ensures |Stored(key, entry).plaintextKey| == entry.plaintextKey.Length
    {
    }

    method Replace(key: string, entry: CacheEntry)
      requires Consistent()
      modifies this`entries, this`view, Buffers()
      ensures Consistent() && Buffers() == old(Buffers()) && Kept(old(view).roles, view.roles) && key !in entries.at
      ensures Model() == Remove(old(Model()), key, Replaced)
      ensures Value(entry.plaintextKey[..], entry.encryptedDataKey[..], entry.keyId) == old(Stored(key, entry))
    {
      hide Consistent, IndexOf, SlotOf, Without;
      LookUp(key);
      if key in entries.at {
        RemoveEntry(key, Replaced);
      }
    }

    method Insert(key: string, entry: CacheEntry, expiresAtMs: real)
      requires Consistent() && key !in entries.at
      modifies this`entries, this`view
      ensures Consistent() && fresh(Buffers() - old(Buffers())) && Kept(old(view).roles, view.roles)
      ensures Model() == Cache(
                old(view).items + [Item(key, Value(entry.plaintextKey[..], entry.encryptedDataKey[..], entry.keyId),
                  expiresAtMs)],
                counters, old(view).evictions)
    {
      hide Listed, Separated;
      var material := CopyEntry(entry);
      ghost var value := Value(entry.plaintextKey[..], entry.encryptedDataKey[..], entry.keyId);
      Link(key, StoredEntry(material, expiresAtMs), value);
    }

    method EvictToCapacity()
      requires Consistent()
      modifies this, Buffers()
      ensures Consistent() && Buffers() == old(Buffers()) && Kept(old(view).roles, view.roles)
      ensures Model() == LruModel.EvictToCapacity(old(Model()), maxEntries)
    {
      hide Consistent, LruModel.EvictToCapacity, Kept;
      InOrder();
      KeptReflexive(view.roles);
      while |entries.order| > maxEntries
        invariant Consistent() && Buffers() == old(Buffers()) && Kept(old(view).roles, view.roles)
        invariant |entries.order| == |view.items|
        invariant LruModel.EvictToCapacity(Model(), maxEntries) == LruModel.EvictToCapacity(old(Model()), maxEntries)
        decreases |entries.order|
      {
        ghost var before := view.roles;
        EvictStep(Model(), maxEntries);
        EvictOldest();
        InOrder();
        KeptTransitive(old(view).roles, before, view.roles);
      }
      EvictDone(Model(), maxEntries);
    }

    lemma InOrder()
      requires Consistent()
      ensures |entries.order| == |view.items| && Distinct(view.items)
      ensures forall i :: 0 <= i < |view.items| ==>
                && entries.order[i] == view.items[i].key && entries.order[i] in entries.at
                && entries.at[entries.order[i]].expiresAtMs == view.items[i].expiresAtMs
    {
    }

    lemma NoKeysLeft()
      requires Consistent() && view.items == []
      ensures forall b :: b in view.roles ==> !view.roles[b].KeyOf?
    {
      ListedEmpty(entries, view);
    }

    method EvictOldest()
      requires Consistent() && |entries.order| > 0
      modifies this, Buffers()
      ensures Consistent() && Buffers() == old(Buffers()) && Kept(old(view).roles, view.roles)
      ensures |entries.order| == old(|entries.order|) - 1
      ensures |old(view).items| > 0 && |old(view).items| == old(|entries.order|)
      ensures Model() == Cache(
                old(view).items[1..],
                old(counters).(capacityEvictions := old(counters).capacityEvictions + 1),
                old(view).evictions + [Evicted(old(view).items[0], Capacity)])
    {
      hide Listed, Separated, IndexOf, SlotOf, Kept;
      ListedSize(entries, view);
      ListedOldest(entries, view);
      var key := entries.order[0];
      LookUp(key);
      hide Consistent;
      RemoveEntry(key, Capacity);
      Tally(counters.(capacityEvictions := counters.capacityEvictions + 1));
    }

    /** Replaces or inserts, without the capacity bound. */
    method Overwrite(key: string, entry: CacheEntry, expiresAtMs: real)
      requires Consistent()
      modifies this`entries, this`view, Buffers()
      ensures Consistent() && fresh(Buffers() - old(Buffers())) && Kept(old(view).roles, view.roles)
      ensures Model() == Put(old(Model()), key, old(Stored(key, entry)), expiresAtMs)
    {
      hide Consistent, Remove, Stored, Kept;
      ghost var before := view.roles;
      Replace(key, entry);
      ghost var between := view.roles;
      Insert(key, entry, expiresAtMs);
      KeptTransitive(before, between, view.roles);
    }

    /** Stores a copy; the caller's buffers are only read. */
    method Set(key: string, entry: CacheEntry, nowMs: real) returns (r: Result<(), CacheError>)
      requires Valid()
      modifies this, Buffers()
      ensures Valid() && fresh(Buffers() - old(Buffers())) && Kept(old(view).roles, view.roles)
      ensures r.Success? <==> entry.plaintextKey.Length == DATA_KEY_BYTES
      ensures Model() == LruModel.Set(old(Model()), key, old(Stored(key, entry)), nowMs + ttlMs, maxEntries)
    {
      hide Consistent, WellFormed, LruModel.EvictToCapacity, Put, Stored, Kept;
      StoredLength(key, entry);
      SetWellFormed(Model(), key, Stored(key, entry), nowMs, Bounds());
      KeptReflexive(view.roles);
      if entry.plaintextKey.Length != DATA_KEY_BYTES {
        return Failure(RangeError);
      }
      Overwrite(key, entry, nowMs + ttlMs);
      ghost var between := view.roles;
      EvictToCapacity();
      KeptTransitive(old(view).roles, between, view.roles);
      return Success(());
    }

    /**
     * `set(key, get(key))`: an entry that is found is put back with its key erased, and so is
     * found again as zeros for as long as the set lasts.
     */
    method PutBack(key: string, nowMs: real, setMs: real) returns (found: Option<CacheEntry>)
      requires Valid()
      modifies this, Buffers()
      ensures Valid()
      ensures match LruModel.Get(old(Model()), key, nowMs).1
              case None => found.None?
              case Some(value) =>
                && found.Some?
                && (Accepts(value) ==>
                      forall thenMs: real :: thenMs < setMs + ttlMs ==>
                        LruModel.Get(Model(), key, thenMs).1 == Some(value.(plaintextKey := Zeros(DATA_KEY_BYTES))))
    {
      hide Consistent, WellFormed, LruModel.Get, LruModel.Set, Kept;
      found := Get(key, nowMs);
      if found.Some? {
        ghost var value := LruModel.Get(old(Model()), key, nowMs).1.value;
        ghost var between := Model();
        LiveBuffersDistinct(key, key);
        StoredLent(key, found.value, value);
        var r := Set(key, found.value, setMs);
        if Accepts(value) {
          forall thenMs: real | thenMs < setMs + ttlMs
            ensures LruModel.Get(Model(), key, thenMs).1 == Some(value.(plaintextKey := Zeros(DATA_KEY_BYTES)))
          {
            SetThenGet(between, key, value.(plaintextKey := Zeros(DATA_KEY_BYTES)), setMs + ttlMs, Bounds(), thenMs);
          }
        }
      }
    }

    /** What a set stores when it is given the entry it replaces: the wrapped key, and zeros for the key. */
    lemma StoredLent(key: string, entry: CacheEntry, value: Value)
      requires Lends(key, entry) && Holds(entry, value) && entry.plaintextKey != entry.encryptedDataKey
      ensures Stored(key, entry) == value.(plaintextKey := Zeros(|value.plaintextKey|))
    {
    }

    method Delete(key: string) returns (deleted: bool)
      requires Valid()
      modifies this, Buffers()
      ensures Valid() && Buffers() == old(Buffers()) && Kept(old(view).roles, view.roles)
      ensures deleted <==> Has(old(view).items, key)
      ensures Model() == Remove(old(Model()), key, Deleted)
    {
      hide Consistent, WellFormed, IndexOf, SlotOf, Without;
      LookUp(key);
      RemoveWellFormed(Model(), key, Bounds());
      if key !in entries.at {
        return false;
      }
      RemoveEntry(key, Deleted);
      return true;
    }

    /** Drops and zeroises every entry. */
    method Clear()
      requires Valid()
      modifies this, Buffers()
      ensures Valid() && Buffers() == old(Buffers()) && Kept(old(view).roles, view.roles)
      ensures Model() == LruModel.Clear(old(Model()))
      ensures forall b :: b in view.roles ==> !view.roles[b].KeyOf?
    {
      hide Consistent, Kept;
      InOrder();
      KeptReflexive(view.roles);
      ghost var all := view.items;
      var snapshot := entries.order;
      for k := 0 to |snapshot|
        invariant Consistent() && Buffers() == old(Buffers()) && Kept(old(view).roles, view.roles)
        invariant |snapshot| == |all| && entries.order == snapshot[k..] && view.items == all[k..]
        invariant view.evictions + EvictedAll(all[k..], Cleared) == old(view).evictions + EvictedAll(all, Cleared)
        invariant counters == old(counters)
      {
        assert all[k..][1..] == all[k + 1..] && snapshot[k..][1..] == snapshot[k + 1..];
        ghost var before := view.roles;
        RemoveOldest(Cleared);
        KeptTransitive(old(view).roles, before, view.roles);
      }
      NoKeysLeft();
    }

    method RemoveOldest(reason: Reason)
      requires Consistent() && |entries.order| > 0
      modifies this`entries, this`view, Buffers()
      ensures Consistent() && Buffers() == old(Buffers()) && Kept(old(view).roles, view.roles)
      ensures entries.order == old(entries).order[1..]
      ensures |old(view).items| > 0 && view.items == old(view).items[1..]
      ensures view.evictions == old(view).evictions + [Evicted(old(view).items[0], reason)]
    {
      hide Listed, Separated, IndexOf, SlotOf, Kept;
      ListedSize(entries, view);
      ListedOldest(entries, view);
      var key := entries.order[0];
      LookUp(key);
      hide Consistent;
      RemoveEntry(key, reason);
    }

    /** Removes only the entries whose TTL has passed. */
    method PruneExpired(nowMs: real) returns (pruned: nat)
      requires Valid()
      modifies this, Buffers()
      ensures Valid() && Buffers() == old(Buffers()) && Kept(old(view).roles, view.roles)
      ensures Model() == LruModel.PruneExpired(old(Model()), nowMs)
      ensures pruned == |Dead(old(view).items, nowMs)|
    {
      hide Consistent, WellFormed, Distinct, IndexOf, SlotOf, Has, Live, Dead, EvictedAll, Kept;
      PruneWellFormed(Model(), nowMs, Bounds());
      InOrder();
      KeptReflexive(view.roles);
      var snapshot := entries;
      ghost var all := view.items;
      ghost var kept: seq<Item> := [];
      pruned := 0;
      for k := 0 to |snapshot.order|
        invariant Consistent() && Buffers() == old(Buffers()) && Kept(old(view).roles, view.roles)
        invariant view.items == kept + all[k..]
        invariant kept + Live(all[k..], nowMs) == Live(all, nowMs)
        invariant view.evictions + EvictedAll(Dead(all[k..], nowMs), Expired)
               == old(view).evictions + EvictedAll(Dead(all, nowMs), Expired)
        invariant pruned + |Dead(all[k..], nowMs)| == |Dead(all, nowMs)|
        invariant counters == old(counters).(expirations := old(counters).expirations + pruned)
      {
        PruneAdvance(all, k, kept, view.evictions, nowMs);
        DropNext(kept, all, k);
        if nowMs >= snapshot.at[snapshot.order[k]].expiresAtMs {
          PruneKnown(snapshot.order[k], |kept|, old(view).roles);
          pruned := pruned + 1;
        } else {
          kept := kept + [all[k]];
        }
      }
      PruneEnds(all, nowMs);
      assert Model() == LruModel.PruneExpired(old(Model()), nowMs);
    }

    method PruneKnown(key: string, ghost n: nat, ghost roles: map<array<byte>, Role>)
      requires Consistent() && n < |view.items| && view.items[n].key == key && Kept(roles, view.roles)
      modifies this, Buffers()
      ensures Consistent() && Buffers() == old(Buffers()) && Kept(roles, view.roles)
      ensures view.items == old(view).items[..n] + old(view).items[n + 1..]
      ensures view.evictions == old(view).evictions + [Evicted(old(view).items[n], Expired)]
      ensures counters == old(counters).(expirations := old(counters).expirations + 1)
    {
      hide Consistent, Kept;
      ghost var before := view.roles;
      RemoveKnown(key, n, Expired);
      KeptTransitive(roles, before, view.roles);
      Tally(counters.(expirations := counters.expirations + 1));
    }

    /** Removes the entry of the `n`th item. */
    method RemoveKnown(key: string, ghost n: nat, reason: Reason)
      requires Consistent() && n < |view.items| && view.items[n].key == key
      modifies this`entries, this`view, Buffers()
      ensures Consistent() && Buffers() == old(Buffers()) && Kept(old(view).roles, view.roles)
      ensures view.items == old(view).items[..n] + old(view).items[n + 1..]
      ensures view.evictions == old(view).evictions + [Evicted(old(view).items[n], reason)]
    {
      hide Consistent, Distinct, IndexOf, SlotOf, Kept;
      InOrder();
      IndexAt(view.items, n);
      LookUp(key);
      RemoveEntry(key, reason);
    }
  }
}
