/** Envelope encryption over cached data keys (packages/crypto/src/encryption-service.ts). */
module EnvelopeSpec {
  import opened Basics
  import opened LruModel
  import opened EncryptionContexts

  datatype ProviderFailure = InvalidCiphertext | Unavailable | InvalidKeyMaterial

  datatype CryptoError =
    | InvalidCoordinates
    | InvalidKeyContext
    | MalformedRecord
    | UnsupportedSchemaVersion
    | EncryptionContextMismatch
    | IntegrityCheckFailed
    | DataKeyUnavailable
    | KeyLengthRangeError

  datatype Unwrapped = Unwrapped(plaintextKey: Bytes, keyId: string)

  datatype Coordinates = Coordinates(lat: real, lng: real)

  datatype SealedPayload = SealedPayload(ciphertext: Bytes, authTag: Bytes)

  datatype Record = Record(
    ciphertext: string,
    iv: string,
    authTag: string,
    encryptedDataKey: string,
    keyId: string,
    algorithm: string,
    schemaVersion: int
  )

  const ALGORITHM := "AES-256-GCM"
  const IV_BYTES := 12
  const AUTH_TAG_BYTES := 16
  const PAYLOAD_BYTES := 16

  /** The foreign parts, as functions: the key service's unwrap, AEAD, base64, and the coordinate codec. */
  datatype World = World(
    unwrap: (Entries, Bytes) -> Result<Unwrapped, ProviderFailure>,
    sealBox: (Bytes, Bytes, string, Bytes) -> SealedPayload,
    openBox: (Bytes, Bytes, string, SealedPayload) -> Option<Bytes>,
    encode64: Bytes -> string,
    decode64: string -> Option<Bytes>,
    validContext: KeyContext -> bool,
    validCoordinates: Coordinates -> bool,
    encodeCoordinates: Coordinates -> Bytes,
    decodeCoordinates: Bytes -> Option<Coordinates>
  )

  /** What is assumed of them: opening what was sealed, and reading back what was encoded. */
  ghost predicate Lawful(w: World) {
    && (forall k, iv, aad, p :: w.openBox(k, iv, aad, w.sealBox(k, iv, aad, p)) == Some(p))
    && (forall k, iv, aad, p :: |w.sealBox(k, iv, aad, p).authTag| == AUTH_TAG_BYTES)
    && (forall k, iv, aad, p :: |w.sealBox(k, iv, aad, p).ciphertext| == |p|)
    && (forall b: Bytes :: b != [] ==> w.encode64(b) != "" && w.decode64(w.encode64(b)) == Some(b))
    && (forall c :: w.validCoordinates(c) ==>
          |w.encodeCoordinates(c)| == PAYLOAD_BYTES && w.decodeCoordinates(w.encodeCoordinates(c)) == Some(c))
  }

  function ToCryptoError(failure: ProviderFailure): CryptoError {
    if failure == InvalidCiphertext then EncryptionContextMismatch else DataKeyUnavailable
  }

  /** What the provider answers for a wrapped key, with no cache in between. */
  function ProviderAnswer(w: World, c: KeyContext, wrapped: Bytes): Result<Value, CryptoError> {
    match w.unwrap(BuildEncryptionContext(c), wrapped)
    case Failure(f) => Failure(ToCryptoError(f))
    case Success(u) =>
      var value := Value(u.plaintextKey, wrapped, u.keyId);
      if Accepts(value) then Success(value) else Failure(KeyLengthRangeError)
  }

  /** A key pair that can be persisted: its wrapped half unwraps, under its own context, to its plaintext half. */
  predicate SelfUnwrapping(w: World, c: KeyContext, value: Value) {
    && value.encryptedDataKey != [] && value.keyId != ""
    && ProviderAnswer(w, c, value.encryptedDataKey).Success?
    && ProviderAnswer(w, c, value.encryptedDataKey).value.plaintextKey == value.plaintextKey
  }

  /** Strict base64: canonical, nonempty, and of the expected length if one is given. */
  function DecodeBase64(w: World, text: string, expected: Option<nat>): Result<Bytes, CryptoError> {
    match w.decode64(text)
    case None => Failure(MalformedRecord)
    case Some(bytes) =>
      if bytes == [] || (expected.Some? && |bytes| != expected.value) then Failure(MalformedRecord) else Success(bytes)
  }

  predicate WellShaped(r: Record) {
    && r.ciphertext != "" && r.iv != "" && r.authTag != "" && r.encryptedDataKey != "" && r.keyId != ""
    && r.algorithm == ALGORITHM && r.schemaVersion > 0
  }

  datatype Opened = Opened(iv: Bytes, authTag: Bytes, ciphertext: Bytes, encryptedDataKey: Bytes)

  /** The checks before the key is needed. */
  function ReadRecord(w: World, r: Record, c: KeyContext): Result<Opened, CryptoError> {
    if !w.validContext(c) then Failure(InvalidKeyContext)
    else if !WellShaped(r) then Failure(MalformedRecord)
    else if r.schemaVersion != 1 then Failure(UnsupportedSchemaVersion)
    else
      var iv :- DecodeBase64(w, r.iv, Some(IV_BYTES));
      var authTag :- DecodeBase64(w, r.authTag, Some(AUTH_TAG_BYTES));
      var ciphertext :- DecodeBase64(w, r.ciphertext, None);
      var encryptedDataKey :- DecodeBase64(w, r.encryptedDataKey, None);
      Success(Opened(iv, authTag, ciphertext, encryptedDataKey))
  }

  /** The text is strict base64 of bytes, at least one of them, and as many as are wanted. */
  predicate Spells(w: World, text: string, bytes: Bytes, wanted: Option<nat>) {
    w.decode64(text) == Some(bytes) && bytes != [] && (wanted.Some? ==> |bytes| == wanted.value)
  }

  /** Which records are read at all, and as what; which are of another version; the rest are malformed. */
  lemma ReadExactly(w: World, r: Record, c: KeyContext, o: Opened)
    ensures var whole := r.ciphertext != "" && r.iv != "" && r.authTag != "" && r.encryptedDataKey != ""
              && r.keyId != "" && r.algorithm == "AES-256-GCM" && r.schemaVersion >= 1;
            var read := ReadRecord(w, r, c);
            && (read == Success(o) <==>
                  && w.validContext(c) && whole && r.schemaVersion == 1
                  && Spells(w, r.iv, o.iv, Some(12)) && Spells(w, r.authTag, o.authTag, Some(16))
                  && Spells(w, r.ciphertext, o.ciphertext, None)
                  && Spells(w, r.encryptedDataKey, o.encryptedDataKey, None))
            && (read == Failure(InvalidKeyContext) <==> !w.validContext(c))
            && (read == Failure(UnsupportedSchemaVersion) <==> w.validContext(c) && whole && r.schemaVersion != 1)
            && (read.Failure? ==> read.error in {InvalidKeyContext, UnsupportedSchemaVersion, MalformedRecord})
  {
  }

  /** What remains once the key is there. */
  function Unseal(w: World, key: Bytes, o: Opened, c: KeyContext): Result<Coordinates, CryptoError> {
    match w.openBox(key, o.iv, CanonicalKeyContext(c), SealedPayload(o.ciphertext, o.authTag))
    case None => Failure(IntegrityCheckFailed)
    case Some(payload) =>
      match w.decodeCoordinates(payload)
      case None => Failure(IntegrityCheckFailed)
      case Some(coordinates) => Success(coordinates)
  }

  /** Decryption with no cache at all. */
  function Decrypt(w: World, r: Record, c: KeyContext): Result<Coordinates, CryptoError> {
    var o :- ReadRecord(w, r, c);
    var key :- ProviderAnswer(w, c, o.encryptedDataKey);
    Unseal(w, key.plaintextKey, o, c)
  }

  function SealRecord(w: World, coordinates: Coordinates, c: KeyContext, iv: Bytes, value: Value): Record {
    var box := w.sealBox(value.plaintextKey, iv, CanonicalKeyContext(c), w.encodeCoordinates(coordinates));
    Record(
      w.encode64(box.ciphertext), w.encode64(iv), w.encode64(box.authTag), w.encode64(value.encryptedDataKey),
      value.keyId, ALGORITHM, 1)
  }

  lemma StrictDecode(w: World, bytes: Bytes, expected: Option<nat>)
    requires Lawful(w) && bytes != [] && (expected.Some? ==> |bytes| == expected.value)
    ensures DecodeBase64(w, w.encode64(bytes), expected) == Success(bytes) && w.encode64(bytes) != ""
  {
  }

  /** A record of nonempty parts of the right sizes is read back part by part. */
  lemma ReadBack(w: World, o: Opened, keyId: string, c: KeyContext)
    requires Lawful(w) && w.validContext(c) && keyId != ""
    requires |o.iv| == IV_BYTES && |o.authTag| == AUTH_TAG_BYTES && o.ciphertext != [] && o.encryptedDataKey != []
    ensures ReadRecord(
              w,
              Record(w.encode64(o.ciphertext), w.encode64(o.iv), w.encode64(o.authTag), w.encode64(o.encryptedDataKey),
                     keyId, ALGORITHM, 1),
              c) == Success(o)
  {
    hide Lawful, DecodeBase64;
    StrictDecode(w, o.iv, Some(IV_BYTES));
    StrictDecode(w, o.authTag, Some(AUTH_TAG_BYTES));
    StrictDecode(w, o.ciphertext, None);
    StrictDecode(w, o.encryptedDataKey, None);
  }

  lemma OpenSealed(w: World, coordinates: Coordinates, aad: string, key: Bytes, iv: Bytes)
    requires Lawful(w) && w.validCoordinates(coordinates)
    ensures var box := w.sealBox(key, iv, aad, w.encodeCoordinates(coordinates));
            && |box.authTag| == AUTH_TAG_BYTES && |box.ciphertext| == PAYLOAD_BYTES
            && w.openBox(key, iv, aad, SealedPayload(box.ciphertext, box.authTag))
              == Some(w.encodeCoordinates(coordinates))
            && w.decodeCoordinates(w.encodeCoordinates(coordinates)) == Some(coordinates)
  {
    var box := w.sealBox(key, iv, aad, w.encodeCoordinates(coordinates));
    assert SealedPayload(box.ciphertext, box.authTag) == box;
  }

  /** A record sealed with a self-unwrapping pair decrypts to its coordinates, under its own context. */
  lemma SealThenDecrypt(w: World, coordinates: Coordinates, c: KeyContext, iv: Bytes, value: Value)
    requires Lawful(w) && w.validContext(c) && w.validCoordinates(coordinates) && |iv| == IV_BYTES
    requires SelfUnwrapping(w, c, value)
    ensures Decrypt(w, SealRecord(w, coordinates, c, iv, value), c) == Success(coordinates)
  {
    hide Lawful, CanonicalKeyContext, ProviderAnswer, ReadRecord;
    OpenSealed(w, coordinates, CanonicalKeyContext(c), value.plaintextKey, iv);
    var box := w.sealBox(value.plaintextKey, iv, CanonicalKeyContext(c), w.encodeCoordinates(coordinates));
    ReadBack(w, Opened(iv, box.authTag, box.ciphertext, value.encryptedDataKey), value.keyId, c);
  }

  /** What a record says: the pair's own key id and wrapped half, and the coordinates under the context. */
  lemma SealedParts(w: World, coordinates: Coordinates, c: KeyContext, iv: Bytes, value: Value)
    requires Lawful(w) && w.validContext(c) && w.validCoordinates(coordinates) && |iv| == IV_BYTES
    requires value.encryptedDataKey != [] && value.keyId != ""
    ensures var r := SealRecord(w, coordinates, c, iv, value);
            && r.keyId == value.keyId && r.algorithm == "AES-256-GCM" && r.schemaVersion == 1
            && w.decode64(r.encryptedDataKey) == Some(value.encryptedDataKey) && w.decode64(r.iv) == Some(iv)
            && exists ciphertext: Bytes, authTag: Bytes ::
                 && w.decode64(r.ciphertext) == Some(ciphertext) && w.decode64(r.authTag) == Some(authTag)
                 && w.openBox(value.plaintextKey, iv, CanonicalKeyContext(c), SealedPayload(ciphertext, authTag))
                    == Some(w.encodeCoordinates(coordinates))
  {
    hide CanonicalKeyContext;
    OpenSealed(w, coordinates, CanonicalKeyContext(c), value.plaintextKey, iv);
    var box := w.sealBox(value.plaintextKey, iv, CanonicalKeyContext(c), w.encodeCoordinates(coordinates));
    assert w.decode64(w.encode64(box.ciphertext)) == Some(box.ciphertext);
    assert w.decode64(w.encode64(box.authTag)) == Some(box.authTag);
  }

  /** Authentication: among these contexts, what is sealed under one opens under no other, with any key. */
  ghost predicate Binds(w: World, aads: set<string>) {
    forall k, iv, a, p, j, v, b :: a in aads && b in aads && a != b ==>
      w.openBox(j, v, b, w.sealBox(k, iv, a, p)) == None
  }

  /** Why another context cannot open a record: its own key is not to be had, or the authentication fails. */
  function ForeignError(w: World, d: KeyContext, wrapped: Bytes): CryptoError {
    match w.unwrap(BuildEncryptionContext(d), wrapped)
    case Failure(InvalidCiphertext) => EncryptionContextMismatch
    case Failure(_) => DataKeyUnavailable
    case Success(key) => if |key.plaintextKey| == 32 then IntegrityCheckFailed else KeyLengthRangeError
  }

  /**
   * A record opens under its own context and no other: even if the provider unwraps its key for
   * another family or user, the answer is never a coordinate.
   */
  lemma OpensExactlyUnderOwnContext(w: World, coordinates: Coordinates, c: KeyContext, iv: Bytes, value: Value,
    d: KeyContext)
    requires Lawful(w) && Binds(w, {CanonicalKeyContext(c), CanonicalKeyContext(d)})
    requires w.validContext(c) && w.validContext(d) && w.validCoordinates(coordinates) && |iv| == IV_BYTES
    requires SelfUnwrapping(w, c, value)
    ensures Decrypt(w, SealRecord(w, coordinates, c, iv, value), d)
            == if c == d then Success(coordinates) else Failure(ForeignError(w, d, value.encryptedDataKey))
  {
    hide Lawful, CanonicalKeyContext, BuildEncryptionContext, ReadRecord;
    SealThenDecrypt(w, coordinates, c, iv, value);
    if c != d {
      CanonicalKeyContextInjective(c, d);
      OpenSealed(w, coordinates, CanonicalKeyContext(c), value.plaintextKey, iv);
      var box := w.sealBox(value.plaintextKey, iv, CanonicalKeyContext(c), w.encodeCoordinates(coordinates));
      ReadBack(w, Opened(iv, box.authTag, box.ciphertext, value.encryptedDataKey), value.keyId, d);
      assert SealedPayload(box.ciphertext, box.authTag) == box;
    }
  }

  // ---- what the caches may hold ------------------------------------------

  /** Whatever a cached item can be looked up as, it agrees with the provider. */
  ghost predicate Faithful(w: World, item: Item) {
    && (forall c: KeyContext :: item.key == CanonicalKeyContext(c) ==> SelfUnwrapping(w, c, item.value))
    && (forall c: KeyContext, text: string, wrapped: Bytes ::
          item.key == DecryptionCacheKey(CanonicalKeyContext(c), text) && w.decode64(text) == Some(wrapped) ==>
            ProviderAnswer(w, c, wrapped) == Success(item.value))
  }

  ghost predicate AllFaithful(w: World, items: seq<Item>) {
    forall item :: item in items ==> Faithful(w, item)
  }

  /** A pair minted for a context is faithful under that context's key: no other lookup reaches it. */
  lemma MintedIsFaithful(w: World, c: KeyContext, value: Value, expiresAtMs: real)
    requires SelfUnwrapping(w, c, value)
    ensures Faithful(w, Item(CanonicalKeyContext(c), value, expiresAtMs))
  {
    forall d: KeyContext | CanonicalKeyContext(c) == CanonicalKeyContext(d) ensures d == c {
      CanonicalKeyContextInjective(c, d);
    }
    forall d: KeyContext, text: string
      ensures CanonicalKeyContext(c) != DecryptionCacheKey(CanonicalKeyContext(d), text) {
      RolesDisjoint(c, d, text);
    }
  }

  /** An unwrapped key is faithful under the key made of its context and its wrapped form. */
  lemma UnwrappedIsFaithful(w: World, c: KeyContext, text: string, wrapped: Bytes, value: Value, expiresAtMs: real)
    requires w.decode64(text) == Some(wrapped) && ProviderAnswer(w, c, wrapped) == Success(value)
    ensures Faithful(w, Item(DecryptionCacheKey(CanonicalKeyContext(c), text), value, expiresAtMs))
  {
    forall d: KeyContext, t: string |
      DecryptionCacheKey(CanonicalKeyContext(c), text) == DecryptionCacheKey(CanonicalKeyContext(d), t)
      ensures d == c && t == text
    {
      DecryptionCacheKeyInjective(c, text, d, t);
    }
    forall d: KeyContext ensures CanonicalKeyContext(d) != DecryptionCacheKey(CanonicalKeyContext(c), text) {
      RolesDisjoint(d, c, text);
    }
  }

  // ---- cache operations keep it that way ---------------------------------

  lemma GetFaithful(w: World, c: Cache, key: string, nowMs: real)
    requires AllFaithful(w, c.items)
    ensures AllFaithful(w, LruModel.Get(c, key, nowMs).0.items)
    ensures LruModel.Get(c, key, nowMs).1.Some? ==>
      exists item :: item in c.items && item.key == key && item.value == LruModel.Get(c, key, nowMs).1.value
  {
    hide Faithful;
    var i := IndexOf(c.items, key);
    if i < |c.items| { assert c.items[i] in c.items; }
  }

  lemma {:induction false} EvictFaithful(w: World, c: Cache, maxEntries: nat)
    requires AllFaithful(w, c.items)
    ensures AllFaithful(w, EvictToCapacity(c, maxEntries).items)
    decreases |c.items|
  {
    hide Faithful;
    if |c.items| > maxEntries {
      EvictFaithful(
        w,
        Cache(c.items[1..], c.stats.(capacityEvictions := c.stats.capacityEvictions + 1),
          c.evictions + [Evicted(c.items[0], Capacity)]),
        maxEntries);
    }
  }

  lemma SetFaithful(w: World, c: Cache, key: string, value: Value, expiresAtMs: real, maxEntries: nat)
    requires AllFaithful(w, c.items) && (Accepts(value) ==> Faithful(w, Item(key, value, expiresAtMs)))
    ensures AllFaithful(w, Set(c, key, value, expiresAtMs, maxEntries).items)
  {
    if Accepts(value) { EvictFaithful(w, Put(c, key, value, expiresAtMs), maxEntries); }
  }
}

/** The service: two key caches, which may be one object, in front of a key provider. */
module EncryptionServices {
  import opened Basics
  import opened LruModel
  import opened DataKeyCaches
  import opened EncryptionContexts
  import opened EnvelopeSpec

  method FreshBuffer(bytes: Bytes) returns (buffer: array<byte>)
    ensures fresh(buffer) && buffer[..] == bytes
  {
    buffer := new byte[|bytes|](i requires 0 <= i < |bytes| => bytes[i]);
  }

  method FreshEntry(value: Value) returns (entry: CacheEntry)
    ensures fresh(entry.plaintextKey) && fresh(entry.encryptedDataKey) && entry.plaintextKey != entry.encryptedDataKey
    ensures Holds(entry, value)
  {
    var plaintextKey := FreshBuffer(value.plaintextKey);
    var encryptedDataKey := FreshBuffer(value.encryptedDataKey);
    entry := CacheEntry(plaintextKey, encryptedDataKey, value.keyId);
  }

  /** The key service seen through the provider: every answer comes in buffers of its own. */
  class KeyProvider {
    const world: World

    constructor (world: World)
      ensures this.world == world
    {
      this.world := world;
    }

    /** `minted` is what the service happens to mint. */
    method GenerateDataKey(minted: Result<Value, ProviderFailure>) returns (r: Result<CacheEntry, ProviderFailure>)
      ensures r.Success? <==> minted.Success?
      ensures r.Failure? ==> r.error == minted.error
      ensures r.Success? ==>
                && fresh(r.value.plaintextKey) && fresh(r.value.encryptedDataKey)
                && r.value.plaintextKey != r.value.encryptedDataKey && Holds(r.value, minted.value)
    {
      if minted.Failure? { return Failure(minted.error); }
      var entry := FreshEntry(minted.value);
      return Success(entry);
    }

    method DecryptDataKey(c: KeyContext, wrapped: Bytes) returns (r: Result<CacheEntry, ProviderFailure>)
      ensures var answer := world.unwrap(BuildEncryptionContext(c), wrapped);
              && (r.Success? <==> answer.Success?)
              && (r.Failure? ==> r.error == answer.error)
              && (r.Success? ==>
                    && fresh(r.value.plaintextKey) && fresh(r.value.encryptedDataKey)
                    && r.value.plaintextKey != r.value.encryptedDataKey
                    && Holds(r.value, Value(answer.value.plaintextKey, wrapped, answer.value.keyId)))
    {
      hide BuildEncryptionContext;
      var answer := world.unwrap(BuildEncryptionContext(c), wrapped);
      if answer.Failure? { return Failure(answer.error); }
      var entry := FreshEntry(Value(answer.value.plaintextKey, wrapped, answer.value.keyId));
      return Success(entry);
    }
  }

  /** A valid cache that agrees with the provider on everything it holds. */
  ghost predicate Serves(cache: DataKeyCache, w: World)
    reads cache, cache.Buffers()
  {
    cache.Valid() && AllFaithful(w, cache.view.items)
  }

  /** A value some faithful item holds under `key`. */
  ghost predicate Known(w: World, key: string, value: Value) {
    exists expiresAtMs: real :: Faithful(w, Item(key, value, expiresAtMs))
  }

  lemma GetKnown(w: World, c: Cache, key: string, nowMs: real)
    requires AllFaithful(w, c.items)
    ensures AllFaithful(w, LruModel.Get(c, key, nowMs).0.items)
    ensures LruModel.Get(c, key, nowMs).1.Some? ==> Known(w, key, LruModel.Get(c, key, nowMs).1.value)
  {
    hide Faithful, LruModel.Get;
    GetFaithful(w, c, key, nowMs);
    if LruModel.Get(c, key, nowMs).1.Some? {
      var item :| item in c.items && item.key == key && item.value == LruModel.Get(c, key, nowMs).1.value;
      assert Faithful(w, Item(key, item.value, item.expiresAtMs));
    }
  }

  /** A caller's own buffers are copied as they are. */
  lemma StoredIsCopy(cache: DataKeyCache, key: string, material: CacheEntry)
    requires cache.Consistent()
    requires material.plaintextKey !in cache.Buffers() && material.encryptedDataKey !in cache.Buffers()
    ensures cache.Stored(key, material)
      == Value(material.plaintextKey[..], material.encryptedDataKey[..], material.keyId)
  {
    cache.LookUp(key);
  }

  /** The caches' lookup keeps the agreement and returns only what agrees. */
  method Consult(cache: DataKeyCache, w: World, key: string, nowMs: real) returns (r: Option<CacheEntry>)
    requires Serves(cache, w)
    modifies cache, cache.Buffers()
    ensures Serves(cache, w) && cache.Buffers() == old(cache.Buffers())
    ensures cache.Model() == LruModel.Get(old(cache.Model()), key, nowMs).0
    ensures match LruModel.Get(old(cache.Model()), key, nowMs).1
            case None => r.None?
            case Some(value) => r.Some? && Holds(r.value, value) && Known(w, key, value)
  {
    hide Faithful, LruModel.Get, DataKeyCache.Valid, Kept;
    GetKnown(w, cache.Model(), key, nowMs);
    r := cache.Get(key, nowMs);
  }

  /** The new entry is copied into the cache; the provider's key is zeroised whether or not that worked. */
  method Fill(cache: DataKeyCache, ghost w: World, key: string, material: CacheEntry, ghost value: Value, nowMs: real)
    returns (r: Result<(), CacheError>)
    requires Serves(cache, w) && Holds(material, value)
    requires material.plaintextKey !in cache.Buffers() && material.encryptedDataKey !in cache.Buffers()
    requires Accepts(value) ==> Faithful(w, Item(key, value, nowMs + cache.ttlMs))
    modifies cache, cache.Buffers(), material.plaintextKey
    ensures Serves(cache, w) && fresh(cache.Buffers() - old(cache.Buffers()))
    ensures AllZero(material.plaintextKey)
    ensures r.Success? <==> Accepts(value)
    ensures cache.Model() == LruModel.Set(old(cache.Model()), key, value, nowMs + cache.ttlMs, cache.maxEntries)
  {
    hide Faithful, LruModel.Set, DataKeyCache.Consistent, DataKeyCache.Stored, Kept;
    StoredIsCopy(cache, key, material);
    SetFaithful(w, cache.Model(), key, value, nowMs + cache.ttlMs, cache.maxEntries);
    r := cache.Set(key, material, nowMs);
    Zeroise(material.plaintextKey);
  }

  /** The three clock readings of one call: the lookup, the set, and the second lookup. */
  datatype Clocks = Clocks(lookup: real, store: real, again: real)

  function LateBy(clocks: Clocks, ttlMs: real): bool {
    clocks.again >= clocks.store + ttlMs
  }

  /** After a miss: what the provider sent goes into the cache and is read back from it. */
  method StoreAndReadBack(cache: DataKeyCache, w: World, key: string, material: CacheEntry, ghost value: Value,
    clocks: Clocks)
    returns (r: Result<CacheEntry, CryptoError>)
    requires Serves(cache, w) && Holds(material, value)
    requires material.plaintextKey !in cache.Buffers() && material.encryptedDataKey !in cache.Buffers()
    requires Accepts(value) ==> Faithful(w, Item(key, value, clocks.store + cache.ttlMs))
    modifies cache, cache.Buffers(), material.plaintextKey
    ensures Serves(cache, w) && fresh(cache.Buffers() - old(cache.Buffers()))
    ensures AllZero(material.plaintextKey)
    ensures r.Success? <==> Accepts(value) && !LateBy(clocks, cache.ttlMs)
    ensures r.Success? ==> Holds(r.value, value)
    ensures r.Failure? ==> r.error == if Accepts(value) then DataKeyUnavailable else KeyLengthRangeError
  {
    hide Faithful, LruModel.Set, LruModel.Get, DataKeyCache.Consistent, Accepts;
    if Accepts(value) {
      SetThenGet(cache.Model(), key, value, clocks.store + cache.ttlMs, cache.Bounds(), clocks.again);
    }
    var filled := Fill(cache, w, key, material, value, clocks.store);
    if filled.Failure? { return Failure(KeyLengthRangeError); }
    var stored := Consult(cache, w, key, clocks.again);
    if stored.None? { return Failure(DataKeyUnavailable); }
    return Success(stored.value);
  }

  /**
   * Key caching is transparent: hit or miss, a key obtained is the provider's answer for that
   * context and wrapped key.  It fails exactly if it missed and the provider failed, sent a key of
   * the wrong length, or sent it so late that the fresh entry had expired.
   */
  method DataKeyForDecryption(
    cache: DataKeyCache, provider: KeyProvider, c: KeyContext, text: string, wrapped: Bytes, clocks: Clocks)
    returns (r: Result<CacheEntry, CryptoError>)
    requires Serves(cache, provider.world) && provider.world.decode64(text) == Some(wrapped)
    modifies cache, cache.Buffers()
    ensures Serves(cache, provider.world) && fresh(cache.Buffers() - old(cache.Buffers()))
    ensures var answer := ProviderAnswer(provider.world, c, wrapped);
            var key := DecryptionCacheKey(CanonicalKeyContext(c), text);
            var missed := LruModel.Get(old(cache.Model()), key, clocks.lookup).1.None?;
            && (r.Success? ==> answer.Success? && Holds(r.value, answer.value))
            && (r.Failure? <==> missed && (answer.Failure? || LateBy(clocks, cache.ttlMs)))
            && (r.Failure? ==> r.error == if answer.Failure? then answer.error else DataKeyUnavailable)
  {
    hide Faithful, LruModel.Get, DataKeyCache.Valid, CanonicalKeyContext, BuildEncryptionContext, DecryptionCacheKey;
    var key := DecryptionCacheKey(CanonicalKeyContext(c), text);
    var cached := Consult(cache, provider.world, key, clocks.lookup);
    if cached.Some? {
      KnownUnwraps(provider.world, c, text, wrapped);
      return Success(cached.value);
    }
    var material := provider.DecryptDataKey(c, wrapped);
    if material.Failure? { return Failure(ToCryptoError(material.error)); }
    ghost var value := Value(material.value.plaintextKey[..], wrapped, material.value.keyId);
    if Accepts(value) { UnwrappedIsFaithful(provider.world, c, text, wrapped, value, clocks.store + cache.ttlMs); }
    r := StoreAndReadBack(cache, provider.world, key, material.value, value, clocks);
  }

  /** The error of a failed encryption: the provider's, a key of the wrong length, or a fresh entry already expired. */
  function MintFailure(minted: Result<Value, ProviderFailure>): CryptoError {
    if minted.Failure? then ToCryptoError(minted.error)
    else if Accepts(minted.value) then DataKeyUnavailable
    else KeyLengthRangeError
  }

  /**
   * A key obtained for encryption, cached or minted, always unwraps under its own context.
   */
  method DataKeyForEncryption(
    cache: DataKeyCache, provider: KeyProvider, c: KeyContext, minted: Result<Value, ProviderFailure>, clocks: Clocks)
    returns (r: Result<CacheEntry, CryptoError>, ghost value: Value)
    requires Serves(cache, provider.world)
    requires minted.Success? && Accepts(minted.value) ==> SelfUnwrapping(provider.world, c, minted.value)
    modifies cache, cache.Buffers()
    ensures Serves(cache, provider.world) && fresh(cache.Buffers() - old(cache.Buffers()))
    ensures r.Success? ==> Holds(r.value, value) && SelfUnwrapping(provider.world, c, value)
    ensures var missed := LruModel.Get(old(cache.Model()), CanonicalKeyContext(c), clocks.lookup).1.None?;
            && (r.Failure? <==> missed && (minted.Failure? || !Accepts(minted.value) || LateBy(clocks, cache.ttlMs)))
            && (r.Success? && missed ==> value == minted.value)
            && (r.Failure? ==> r.error == MintFailure(minted))
  {
    hide Faithful, LruModel.Get, DataKeyCache.Valid, CanonicalKeyContext, SelfUnwrapping;
    var key := CanonicalKeyContext(c);
    ghost var found := LruModel.Get(cache.Model(), key, clocks.lookup).1;
    value := if minted.Success? then minted.value else Value([], [], "");
    var cached := Consult(cache, provider.world, key, clocks.lookup);
    if cached.Some? {
      KnownMints(provider.world, c);
      value := found.value;
      return Success(cached.value), value;
    }
    var material := provider.GenerateDataKey(minted);
    if material.Failure? { return Failure(ToCryptoError(material.error)), value; }
    if Accepts(value) { MintedIsFaithful(provider.world, c, value, clocks.store + cache.ttlMs); }
    r := StoreAndReadBack(cache, provider.world, key, material.value, value, clocks);
  }

  lemma KnownUnwraps(w: World, c: KeyContext, text: string, wrapped: Bytes)
    requires w.decode64(text) == Some(wrapped)
    ensures forall value :: Known(w, DecryptionCacheKey(CanonicalKeyContext(c), text), value) ==>
              ProviderAnswer(w, c, wrapped) == Success(value)
  {
  }

  lemma KnownMints(w: World, c: KeyContext)
    ensures forall value :: Known(w, CanonicalKeyContext(c), value) ==> SelfUnwrapping(w, c, value)
  {
  }

  class EncryptionService {
    const keyProvider: KeyProvider
    const encryptionKeyCache: DataKeyCache
    const decryptionKeyCache: DataKeyCache

    /** Both caches agree with the provider; they are one object, or they share no buffer. */
    ghost predicate Valid()
      reads encryptionKeyCache, encryptionKeyCache.Buffers(), decryptionKeyCache, decryptionKeyCache.Buffers()
    {
      && Serves(encryptionKeyCache, keyProvider.world)
      && Serves(decryptionKeyCache, keyProvider.world)
      && (encryptionKeyCache != decryptionKeyCache ==> encryptionKeyCache.Buffers() !! decryptionKeyCache.Buffers())
    }

    constructor (keyProvider: KeyProvider, encryptionKeyCache: DataKeyCache, decryptionKeyCache: DataKeyCache)
      requires Serves(encryptionKeyCache, keyProvider.world) && Serves(decryptionKeyCache, keyProvider.world)
      requires encryptionKeyCache != decryptionKeyCache ==> encryptionKeyCache.Buffers() !! decryptionKeyCache.Buffers()
      ensures Valid() && this.keyProvider == keyProvider
      ensures this.encryptionKeyCache == encryptionKeyCache && this.decryptionKeyCache == decryptionKeyCache
    {
      this.keyProvider := keyProvider;
      this.encryptionKeyCache, this.decryptionKeyCache := encryptionKeyCache, decryptionKeyCache;
    }

    /** Whatever was cached, in whichever role, a record that is returned decrypts to the coordinates. */
    method EncryptCoordinates(
      coordinates: Coordinates, c: KeyContext, iv: Bytes, minted: Result<Value, ProviderFailure>, clocks: Clocks)
      returns (r: Result<Record, CryptoError>)
      requires Valid() && Lawful(keyProvider.world) && |iv| == IV_BYTES
      requires minted.Success? && Accepts(minted.value) ==> SelfUnwrapping(keyProvider.world, c, minted.value)
      modifies encryptionKeyCache, encryptionKeyCache.Buffers()
      ensures Valid()
      ensures r.Success? ==> Decrypt(keyProvider.world, r.value, c) == Success(coordinates)
      ensures r.Success? ==> exists value: Value ::
                && SelfUnwrapping(keyProvider.world, c, value)
                && r.value == SealRecord(keyProvider.world, coordinates, c, iv, value)
                && (LruModel.Get(old(encryptionKeyCache.Model()), CanonicalKeyContext(c), clocks.lookup).1.None? ==>
                      minted == Success(value))
      ensures !keyProvider.world.validContext(c) ==> r == Failure(InvalidKeyContext)
      ensures keyProvider.world.validContext(c) && !keyProvider.world.validCoordinates(coordinates) ==>
        r == Failure(InvalidCoordinates)
      ensures keyProvider.world.validContext(c) && keyProvider.world.validCoordinates(coordinates) ==>
                && (r.Failure? <==>
                      && LruModel.Get(old(encryptionKeyCache.Model()), CanonicalKeyContext(c), clocks.lookup).1.None?
                      && (minted.Failure? || !Accepts(minted.value) || LateBy(clocks, encryptionKeyCache.ttlMs)))
                && (r.Failure? ==> r.error == MintFailure(minted))
    {
      hide Lawful, AllFaithful, LruModel.Get, DataKeyCache.Valid, CanonicalKeyContext, SelfUnwrapping, Decrypt,
        SealRecord;
      if !keyProvider.world.validContext(c) { return Failure(InvalidKeyContext); }
      if !keyProvider.world.validCoordinates(coordinates) { return Failure(InvalidCoordinates); }
      var entry, value := DataKeyForEncryption(encryptionKeyCache, keyProvider, c, minted, clocks);
      if entry.Failure? { return Failure(entry.error); }
      SealThenDecrypt(keyProvider.world, coordinates, c, iv, value);
      var key := Value(entry.value.plaintextKey[..], entry.value.encryptedDataKey[..], entry.value.keyId);
      return Success(SealRecord(keyProvider.world, coordinates, c, iv, key));
    }

    /**
     * Decryption answers what it would with no cache at all, except that a call that misses may
     * find its fresh entry already expired.
     */
    method DecryptCoordinates(record: Record, c: KeyContext, clocks: Clocks)
      returns (r: Result<Coordinates, CryptoError>)
      requires Valid()
      modifies decryptionKeyCache, decryptionKeyCache.Buffers()
      ensures Valid()
      ensures || r == Decrypt(keyProvider.world, record, c)
              || (&& r == Failure(DataKeyUnavailable) && LateBy(clocks, decryptionKeyCache.ttlMs)
                  && LruModel.Get(
                       old(decryptionKeyCache.Model()),
                       DecryptionCacheKey(CanonicalKeyContext(c), record.encryptedDataKey),
                       clocks.lookup).1.None?)
    {
      hide AllFaithful, LruModel.Get, DataKeyCache.Valid, CanonicalKeyContext, ProviderAnswer, WellShaped, Unseal,
        DecryptionCacheKey;
      var parts := ReadRecord(keyProvider.world, record, c);
      if parts.Failure? { return Failure(parts.error); }
      var entry := DataKeyForDecryption(
        decryptionKeyCache, keyProvider, c, record.encryptedDataKey, parts.value.encryptedDataKey, clocks);
      if entry.Failure? { return Failure(entry.error); }
      r := Unseal(keyProvider.world, entry.value.plaintextKey[..], parts.value, c);
    }
  }
}
