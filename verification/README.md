# Verified model of the location, encryption and API-client cores

A Dafny 4.11 model of five parts of the family-location system, and proofs of what each of them
promises. `dafny verify dfyconfig.toml` checks everything.

| part | files | what is modelled |
|---|---|---|
| Outbound event queue | `QueueTypes`, `QueueSelection`, `QueueRetention`, `QueueBackoff`, `QueueModel`, `OutboundQueue`, `QueueFacts`, `QueueRuns`, `QueueDrain`, `QueueConservation`, `QueuePacing`, `QueueHistory`, `QueueRetries`, `QueueFairness`, `QueueReopened` | `OutboundQueue` and `InMemoryQueueStorage` are classes; every call is proved equal to a step on values, and whole runs of those steps, with the server as an adversary that may answer anything, carry the theorems |
| Envelope encryption | `EncryptionContext`, `LruModel`, `DataKeyCache`, `EncryptionService` | `DataKeyCache` keeps key buffers on the heap, with their ownership and erasure; `EncryptionService` runs over an abstract key provider and sealed box |
| Signature conversion | `DerJose` | a cursor over a buffer, proved to be the exact inverse of a DER encoder (X.690 sections 8.1.3, 8.3 and 10.1; RFC 7518 section 3.4) |
| Tracking and configuration | `Battery`, `Tracking`, `TrackingStates`, `RetryPolicies`, `Config`, `ConfigReads`, `ConfigClamp` | the reducer over twelve event types, and the whitelist projection of an untrusted configuration |
| API client | `Tokens`, `RequestLoop` | token refresh as atomic steps under every interleaving, and the retry loop with its timing |

`Basics`, `Limits` and `Sorting` hold the shared vocabulary: results, bytes, numbers that may be non-finite,
`Math.round`, the platform limits, stable sorting, and the UTF-16 order of strings.

How things are represented:

- Thresholds, delays and times are exact reals. A number that untrusted code supplies is a `Num`, finite or not.
- The upload function, the transport, the random source, the clock and the key service are parameters, and
  statements hold for all of them. Each public call runs to completion before the next; only the token manager
  is modelled under interleaving.
- What is assumed of foreign code is written down as predicates: `EnvelopeSpec.Lawful` (opening undoes sealing,
  base64 and the coordinate codec read back what they wrote), `EnvelopeSpec.SelfUnwrapping` (a minted pair
  unwraps under its own context), `EnvelopeSpec.Binds` (what is sealed under one context opens under no other) and
  `TokenProtocol.FreshTokens` (an issued token is one nobody has presented).

## Where the code falls short of its documentation

The model follows the code. Each of these is a theorem with the exact condition, and a concrete input.

- The DER converter accepts a two-byte long-form length with a zero lead byte (`scripts/apple/asc-client.ts:202-224`).
  Outputs identify their inputs exactly for coordinate widths up to 60 bytes: `DerSpec.CanonicalExactlyUpTo60`; wider,
  `DerSpec.WideHasTwoEncodings` builds two inputs with one output.
- "Bounded by maxDelayMs" for the queue's backoff (`packages/location-core/src/queue.ts:271-279`) holds exactly if
  the ceiling does not round up: `QueueBackoff.CeilingHoldsExactly`. A ceiling of 1000.5 ms is exceeded:
  `QueueBackoff.FractionalCeilingExceeded`.
- "Never sleep longer than this, whatever Retry-After claims" (`packages/api-client/src/retry.ts:17`) holds exactly
  if ceiling × jitter is at most one half (whole milliseconds): `RequestTiming.RetryAfterCeilingExactly`. The
  client's own defaults, 60 s and 0.2, may sleep for 69.6 s: `RequestTiming.DefaultCeilingExceeded`.
- The API client does not clamp its injectable random source (`packages/api-client/src/retry.ts:78-81`). A wait stays
  within the rounded target × (1 + jitter), for every hint and ceiling, exactly if the draw's swing is between -1 and
  the jitter ratio, as for every draw in [0, 1]: `RequestTiming.DrawBoundedExactly`. A draw of 2 waits 96 s where the
  bound is 72 s: `RequestTiming.HighDrawExceedsBound`.
- `createTrackingContext` accepts any rehydrated session (`packages/location-core/src/state-machine.ts:551-576`).
  Sessions last at most 600 s on every run exactly if that one does, or there is none, or it has expired, a consent is
  missing or the battery is critical: `TrackingRuns.SessionsShortExactly`. A session of one hour is kept:
  `TrackingRuns.HourLongSessionKept`.
- Taking the device with the oldest record first "keeps a chatty device from starving a quiet one"
  (`packages/location-core/src/queue.ts:364-369`), but the chosen device is served by sequence number. At every batch
  size the batch holds a record that has waited longest exactly if the chosen device's lowest-numbered record has:
  `QueueFairness.LongestServedExactly`. A number enqueued late is submitted before records that have waited longer:
  `QueueFairness.OutOfTurnPassesOver`. A flush that passes a record over lessens the work ahead of it exactly if it
  submits or drops a record ahead: `QueueFairness.PassedOverCostsExactly`; with numbers and times in turn it always
  does, and nothing starves: `QueueFairness.NoStarvation`.
- `uploadedCount` counts an id once for each time the server repeats it: `QueueConservation.UploadedCountExactly`,
  `QueueConservation.UploadedCountOverCounts`.
- A configuration is accepted although `uploadBatchSize` or `retry.maxAttempts` was rounded:
  `ConfigSpec.AcceptedKeepsEveryNumber`, `ConfigSpec.FractionalBatchSizeIsAccepted`,
  `ConfigSpec.FractionalMaxAttemptsIsAccepted`.
- The guardrails hold for every remote value exactly if the base policy and version are good already, because a
  non-object `retry` copies the base: `ConfigSpec.InBoundsForEveryRemoteExactly`. A base of 100 attempts survives:
  `ConfigSpec.BadBaseSurvives`.
- A set on the key cache stores the caller's bytes exactly if neither of the caller's buffers is the key buffer that
  the set erases before it copies: `DataKeyCaches.DataKeyCache.StoredIsCopyExactly`. So `set(key, get(key))` stores
  zeros: `DataKeyCaches.DataKeyCache.PutBack`.
- After `reset`, a refresh that was pending may still store the old session's token:
  `TokenProtocol.ResetForgetsExactly`, `TokenProtocol.OldTokenSurvivesReset`. A caller that joins a flight between its
  `then` and its `finally` gets back the token it presented: `TokenProtocol.LateJoinerGetsItsOwnToken`,
  `TokenProtocol.LateJoinHappens`.

## Model

| member | source | states |
|---|---|---|
| DerSpec.ConvertAcceptsExactly | scripts/apple/asc-client.ts:298-330 | at every width, an input is accepted with an output exactly if it is an encoding, in some permitted length forms, of a pair below 256^width, and the output is that pair's fixed-width form |
| DerSpec.ConvertIsDerInverse | scripts/apple/asc-client.ts:298-330 | for width at most 60, acceptance is exactly on the DER encodings of pairs below 256^width, with r and s big-endian as output |
| DerSpec.DerRoundTrip | scripts/apple/asc-client.ts:298-330 | encode, then convert: both coordinates come back, at every width that holds them |
| DerSpec.CanonicalExactlyUpTo60 | scripts/apple/asc-client.ts:202-224 | no two inputs share an output if and only if the width is at most 60 bytes |
| DerSpec.WideHasTwoEncodings | scripts/apple/asc-client.ts:202-224 | for a wider coordinate there are two inputs with one output |
| DerJose.DerCursor.ReadByte | scripts/apple/asc-client.ts:179-189 | takes the first remaining byte, or reports truncation and takes nothing |
| DerJose.DerCursor.ReadLength | scripts/apple/asc-client.ts:202-224 | reads what the length grammar parses and leaves the rest, or its error |
| DerJose.DerCursor.ReadSlice | scripts/apple/asc-client.ts:226-237 | takes exactly the asked-for bytes, or reports truncation |
| DerJose.ReadDerInteger | scripts/apple/asc-client.ts:243-269 | the magnitude of the next INTEGER with its sign padding stripped, refusing negative and over-padded content |
| DerJose.PadToWidth | scripts/apple/asc-client.ts:272-283 | a fresh buffer of the width holding the magnitude right-aligned after zeros, or an error if it is too long |
| DerJose.DerToJoseSignature | scripts/apple/asc-client.ts:298-330 | an error, or a fresh buffer of exactly 2 × width bytes holding the conversion; the input buffer is unchanged |
| Battery.ReversalsCostMargin | packages/location-core/src/state-machine.ts:391-414 | over any sequence of levels, reversals of the tier × the recovery margin are at most the distance the clamped level travelled |
| Battery.NarrowWindowNeverReverses | packages/location-core/src/state-machine.ts:391-414 | readings inside a window narrower than the margin never reverse the tier |
| Battery.MarginWideWindowReverses | packages/location-core/src/state-machine.ts:391-414 | a window as wide as the margin allows any number of reversals, so the margin is exact |
| Battery.TierIsTwoLatches | packages/location-core/src/state-machine.ts:391-414 | over any sequence of levels the tier is two latches on the last decisive level: critical at or below 10% until 15%, not normal at or below 20% until 25% |
| Tracking.ReduceTrackingAll | packages/location-core/src/state-machine.ts:634-641 | the loop computes the fold of the reducer over the log, whose result `TrackingStates.StateFollowsLog` determines |
| TrackingRuns.CreateIsDerived | packages/location-core/src/state-machine.ts:551-576 | a created context is one that deriving again does not change |
| TrackingRuns.ReduceAllIsDerived | packages/location-core/src/state-machine.ts:619-641 | so is every context reached by a run |
| TrackingRuns.TicksUnobservable | packages/location-core/src/state-machine.ts:619-774 | ticks inserted anywhere in a log, each no later than the clock at the next event, leave the final context unchanged |
| TrackingRuns.IdleTicks | packages/location-core/src/state-machine.ts:619-641 | from a derived context, any number of ticks that do not move the clock change nothing |
| TrackingRuns.LateEventsActNow | packages/location-core/src/state-machine.ts:619-641 | late events act as if at the current clock: any log, with times in any order or unreadable, has the effect of the same events at nondecreasing times |
| TrackingRuns.LiveSessionsSafe | packages/location-core/src/state-machine.ts:586-774 | on every run the state is LIVE exactly if a session is present; that session is unexpired, coexists with consent, permission and a non-critical battery, and is the rehydrated one as it was or at most 600 s long |
| TrackingRuns.SessionsShortExactly | packages/location-core/src/state-machine.ts:551-576 | sessions last at most 600 s on every run if and only if there is no rehydrated one, or it lasts at most that, or it has expired, or sharing, permission or battery make creation drop it |
| TrackingRuns.HourLongSessionKept | packages/location-core/src/state-machine.ts:551-576 | a rehydrated session of one hour is kept and the context is LIVE |
| TrackingRuns.SessionsFrozenAndDisjoint | packages/location-core/src/state-machine.ts:643-774 | a session seen later is the same record, or started no earlier than any moment at which the former was still running |
| TrackingStates.RequestsExactly | packages/location-core/src/state-machine.ts:586-700 | a request is refused with the first reason against it and leaves a running session alone, or else starts a session of the whole seconds asked for, at least one, up to 600 or with a low battery 300 |
| TrackingRuns.NoEscapeWithoutConsent | packages/location-core/src/state-machine.ts:521-529 | no run without SHARING_RESUMED or PERMISSION_CHANGED leaves DISABLED and PERMISSION_REQUIRED |
| TrackingRuns.EscapeThroughConsent | packages/location-core/src/state-machine.ts:521-529 | a run that leaves the two states does so at a consent event of its log, after which both consents are in place |
| TrackingRuns.BandFollowsBatteryLog | packages/location-core/src/state-machine.ts:649-719 | the tier after a run is the hysteresis fold over the battery readings of its log |
| TrackingRuns.StalenessFollowsLog | packages/location-core/src/state-machine.ts:725-774 | on every run, while both consents hold, the enabled time is that of the event at which they last came into place, and stale means that more than the limit has passed since the last LOCATION_RECORDED of the log, or before the first since the enabled time; without them nothing is stale |
| TrackingStates.StateFollowsLog | packages/location-core/src/state-machine.ts:431-774 | on every run the reported state is determined by the log, cause by cause: DISABLED and PERMISSION_REQUIRED by the last consent and permission, CRITICAL_BATTERY and LOW_BATTERY by the latches and the last power mode, LIVE by a running session, OFFLINE by the last connectivity, STALE by the time since the last fix against the last limit asked for, and otherwise the state named for the last of the six motions |
| TrackingStates.ClockIsLatest | packages/location-core/src/state-machine.ts:619-625 | the clock shows the latest time the log told it, or the start, and never goes back |
| TrackingStates.SessionEndsExactly | packages/location-core/src/state-machine.ts:643-774 | an event that is no request ends a running session exactly if it has expired, is stopped, or consent, permission or battery has failed, and reports the first of these; otherwise session and reason stay as they were |
| ConfigSpec.ClampInBounds | packages/location-core/src/config.ts:290-479 | any untrusted value over a good base meets every guardrail, hard limit and pin, with critical < low |
| ConfigSpec.InBoundsForEveryRemoteExactly | packages/location-core/src/config.ts:210-213 | that holds for every remote value if and only if the base's version and retry policy are good |
| ConfigSpec.ClampIsProjection | packages/location-core/src/config.ts:290-479 | clamping a clamped configuration again, over any base, returns it unchanged and reports nothing |
| ConfigSpec.FixedPointsExactly | packages/location-core/src/config.ts:290-479 | the configurations clamping leaves alone are exactly those within every guardrail |
| ConfigSpec.AcceptedKeepsEveryNumber | packages/location-core/src/config.ts:107-270 | an accepted configuration keeps every supplied number, and the two counts exactly if they were integral |
| ConfigSpec.FractionalBatchSizeIsAccepted | packages/location-core/src/config.ts:414-427 | a batch size of 2.5 is accepted and becomes 3 |
| ConfigSpec.FractionalMaxAttemptsIsAccepted | packages/location-core/src/config.ts:236-249 | a `retry.maxAttempts` of 2.5 is accepted and becomes 3 |
| ConfigSpec.BadBaseSurvives | packages/location-core/src/config.ts:210-213 | a base of 100 attempts survives a remote `retry` that is not an object, out of bounds |
| ConfigSpec.RecordSilentExactly | packages/location-core/src/config.ts:157-204 | reading a state record reports nothing exactly if every state's value is usable as delivered and no key is unknown |
| ConfigReads.ClampReads | packages/location-core/src/config.ts:107-479 | every number supplied, in the scalars, both state records and the retry policy, becomes the nearest point of its guardrail, and an absent or invalid one the point nearest to the base; from there only pins, whole numbers, the live interval, critical < low and base <= longest delay change it |
| ConfigReads.ReportsExactly | packages/location-core/src/config.ts:107-128 | for every field with a guardrail BELOW_MIN, ABOVE_MAX and INVALID are reported exactly if the value is below it, above it, or no number |
| ConfigReads.OdditiesExactly | packages/location-core/src/config.ts:157-479 | unknown names, overridden pins, records, policies and versions that are none, and numbers in the wrong order are reported, each exactly if it occurs |
| ConfigClamp.ReadStateRecord | packages/location-core/src/config.ts:157-185 | the loops return the record's value and append exactly its reports |
| ConfigClamp.ApplyPins | packages/location-core/src/config.ts:187-204 | the pinned states are overwritten, and exactly the differing supplied ones are reported |
| ConfigClamp.ReadRetryPolicy | packages/location-core/src/config.ts:210-270 | the policy read and exactly its reports |
| ConfigClamp.ClampConfig | packages/location-core/src/config.ts:290-479 | configuration, adjustments and acceptance are those of the specification, for any remote value and base |
| PercentEncoding.DecodeEncode | packages/crypto/src/encryption-context.ts:37-45 | percent-encoding has a left inverse |
| PercentEncoding.EncodeSafe | packages/crypto/src/encryption-context.ts:37-45 | it never emits the separators ampersand, equals sign and bar |
| PercentEncoding.EncodeKeepsExactly | packages/crypto/src/encryption-context.ts:37-45 | exactly the strings of letters, digits and the nine unreserved marks are left as they are |
| EncryptionContexts.CanonicalExactly | packages/crypto/src/encryption-context.ts:37-45 | two contexts have one canonical string if and only if they have the same keys with the same values |
| EncryptionContexts.CanonicalForm | packages/crypto/src/encryption-context.ts:16-49 | for every family and user, the authenticated text is the encoded family, the fixed purpose, the schema version, and the encoded user if there is one, in that order |
| Strings.AtMostByCodeUnit | packages/crypto/src/encryption-context.ts:38-39 | the order on strings is the lexicographic one of their UTF-16 code units |
| EncryptionContexts.CanonicalKeyContextInjective | packages/crypto/src/encryption-context.ts:20-49 | a canonical key context names one family and at most one user |
| EncryptionContexts.DecryptionCacheKeyInjective | packages/crypto/src/encryption-service.ts:158 | context, bar and wrapped key together identify both, whatever the wrapped key's text |
| EncryptionContexts.RolesDisjoint | packages/crypto/src/encryption-service.ts:107-158 | no encryption cache key is a decryption cache key, so one cache may serve both roles |
| LruModel.CacheRefinesReference | packages/crypto/src/data-key-cache.ts:98-184 | after any history, with any clock readings, a lookup returns the last value set exactly if it is unexpired and not evicted, and the size is within the bound |
| LruModel.ApplyRefines | packages/crypto/src/data-key-cache.ts:98-184 | one operation is one step of the unbounded model, with the cache choosing the victims; only a set gives a key an expiry |
| LruModel.CapacityEvictsLeastRecent | packages/crypto/src/data-key-cache.ts:170-184 | a key is dropped for capacity only after at least maxEntries distinct other keys were touched since its own last touch |
| LruModel.CapacityReportsVictims | packages/crypto/src/data-key-cache.ts:170-189 | the hook reports CAPACITY for the dropped key and nothing else |
| LruModel.ReportsFit | packages/crypto/src/data-key-cache.ts:98-189 | every call adds its reports to those there were, each for a reason that fits the call and its key |
| LruModel.CountersTellHistory | packages/crypto/src/data-key-cache.ts:89-184 | after any history, hits are the lookups that found an entry and misses the others, and expirations and capacity evictions are counted as often as reported |
| LruModel.EveryEntryAccountedFor | packages/crypto/src/data-key-cache.ts:98-189 | after any history, what was stored is what is still held and what the hook was told about, occurrence by occurrence |
| LruModel.SetEvictsHead | packages/crypto/src/data-key-cache.ts:119-184 | from a full cache a new key evicts exactly the least recently touched entry; otherwise nothing is evicted |
| DataKeyCaches.DataKeyCache.Create | packages/crypto/src/data-key-cache.ts:66-79 | a bound that is not a positive integer or a TTL that is not positive is refused; an absent one takes its default of 256 entries or five minutes; otherwise an empty cache |
| DataKeyCaches.DataKeyCache.Get | packages/crypto/src/data-key-cache.ts:98-116 | the whole new state and the answer are those of the list model; a hit lends the stored buffers with the stored contents, and no buffer loses its owner |
| DataKeyCaches.DataKeyCache.Set | packages/crypto/src/data-key-cache.ts:119-135 | stores copies in fresh buffers under the list model's new state, or refuses a key of another length and changes nothing |
| DataKeyCaches.DataKeyCache.Delete | packages/crypto/src/data-key-cache.ts:137-145 | removes and reports the entry if there is one, and says whether there was |
| DataKeyCaches.DataKeyCache.Clear | packages/crypto/src/data-key-cache.ts:148-153 | empties the cache with a report for each entry, and no key buffer is live afterwards |
| DataKeyCaches.DataKeyCache.PruneExpired | packages/crypto/src/data-key-cache.ts:156-168 | removes exactly the expired entries, keeps the order of the rest, and counts them |
| DataKeyCaches.DataKeyCache.EvictToCapacity | packages/crypto/src/data-key-cache.ts:170-184 | evicts from the oldest until the bound holds |
| DataKeyCaches.DataKeyCache.RemoveEntry | packages/crypto/src/data-key-cache.ts:186-189 | removal by any path reports the entry while its key is intact and leaves that key buffer all zero |
| DataKeyCaches.DataKeyCache.LiveBuffersDistinct | packages/crypto/src/data-key-cache.ts:119-135 | live entries never share a buffer, and no live key buffer has been retired |
| DataKeyCaches.DataKeyCache.KeyBufferLiveOrErased | packages/crypto/src/data-key-cache.ts:119-189 | every key buffer the cache ever made holds its entry's stored key, or is all zero |
| DataKeyCaches.DataKeyCache.StoredIsCopyExactly | packages/crypto/src/data-key-cache.ts:119-135 | a set stores the caller's bytes if and only if neither of the caller's two buffers is the key buffer the set destroys, or that one was zero already |
| DataKeyCaches.DataKeyCache.PutBack | packages/crypto/src/data-key-cache.ts:98-135 | getting an entry and setting it again under its key leaves a key of zeros, found for as long as the set lasts |
| EnvelopeSpec.SealThenDecrypt | packages/crypto/src/encryption-service.ts:100-182 | a record sealed with a self-unwrapping pair decrypts to its coordinates under its own context |
| EnvelopeSpec.OpensExactlyUnderOwnContext | packages/crypto/src/encryption-service.ts:100-182 | a record decrypts under its own context, and under any other fails with the error stated, even if the provider unwraps its key there |
| EnvelopeSpec.SealedParts | packages/crypto/src/encryption-service.ts:110-125 | a record carries the key id and the wrapped half of the pair it was sealed with, and its parts open to the coordinates under that pair and context |
| EnvelopeSpec.ReadExactly | packages/crypto/src/encryption-service.ts:135-157 | which records are read, and as what, which are of another version, and which are malformed |
| EnvelopeSpec.MintedIsFaithful | packages/crypto/src/encryption-service.ts:199-227 | a pair minted for a context is right for every lookup that can reach it, in either role |
| EnvelopeSpec.UnwrappedIsFaithful | packages/crypto/src/encryption-service.ts:229-257 | so is a key unwrapped for a context and wrapped key |
| LruModel.SetThenGet | packages/crypto/src/data-key-cache.ts:98-135 | an entry just set is found again until its time to live has passed, however full the cache was |
| EncryptionServices.Fill | packages/crypto/src/encryption-service.ts:215-220 | the entry is copied in and the provider's key buffer is all zero afterwards, also when the cache refused the key |
| EncryptionServices.DataKeyForDecryption | packages/crypto/src/encryption-service.ts:229-257 | hit or miss, the key is the provider's answer for that context and wrapped key; it fails exactly if it missed and the provider failed, sent a wrong length, or the fresh entry had already expired |
| EncryptionServices.DataKeyForEncryption | packages/crypto/src/encryption-service.ts:199-227 | a pair, cached or minted, always unwraps under its own context; it fails exactly in the corresponding cases |
| EncryptionServices.EncryptionService.EncryptCoordinates | packages/crypto/src/encryption-service.ts:100-133 | a returned record is sealed with a self-unwrapping pair, the one minted if the cache missed, and decrypts to the coordinates, even if one cache object serves both roles; it fails exactly in the stated cases, each with its own error |
| EncryptionServices.EncryptionService.DecryptCoordinates | packages/crypto/src/encryption-service.ts:135-182 | the answer is that of decryption with no cache, except that a missing call may find its fresh entry expired |
| QueueTypes.PrecedesIsOrder | packages/location-core/src/queue.ts:335-355 | the queue order is total and transitive, with ties only between records of one id |
| QueueTypes.OrderIgnoresArrival | packages/location-core/src/queue.ts:353-355 | ordering distinct records does not depend on how storage listed them |
| QueueSelection.DeriveIdempotencyKey | packages/location-core/src/queue.ts:319-329 | the loop computes the key over the device, the count, and every id and sequence number in order |
| QueueSelection.KeyIgnoresTheRest | packages/location-core/src/queue.ts:312-329 | events that agree in ids and sequence numbers have one key: no position or time reaches it |
| QueueSelection.KeyIdentifiesBatch | packages/location-core/src/queue.ts:319-329 | if the hash is injective and no id contains a colon, two batches have one key exactly if they agree in device, ids and sequence numbers |
| QueueSelection.KeyShowsSpan | packages/location-core/src/queue.ts:319-329 | whatever the hash, equal keys mean the same device, first and last sequence number, and count |
| QueueSelection.ColonsCollide | packages/location-core/src/queue.ts:319-329 | with colons in the event ids, two batches of different events have one key, whatever the hash |
| QueueSelection.SelectBatch | packages/location-core/src/queue.ts:370-399 | the loop finds the first longest-waiting record and returns the specified selection, or none for no records |
| QueueSelection.BatchMeaning | packages/location-core/src/queue.ts:364-399 | a batch is nonempty, within the limit, from the longest-waiting record's device alone, in sequence order, and whatever of that device stays behind comes later and only if the batch is full |
| QueueSelection.BatchInTurn | packages/location-core/src/queue.ts:335-399 | a batch runs by sequence number, then capture time, then id, nothing left behind is due before any of it, and its limit is the whole number asked for, from 1 to 100 |
| QueueSelection.SelectionIgnoresArrival | packages/location-core/src/queue.ts:370-399 | batch and key depend on the set of records, not on the order they are listed in |
| QueueRetention.PruneForRetention | packages/location-core/src/queue.ts:428-480 | the loops compute kept and dropped of the specification |
| QueueRetention.RetentionPartitions | packages/location-core/src/queue.ts:448-480 | for distinct ids, kept and dropped partition the input, what is kept meets every cap, every drop has its cause, and no capacity victim is newer than anything kept |
| QueueRetention.EvictsExactlyTheOverflow | packages/location-core/src/queue.ts:463-477 | exactly the overflow is evicted, no more and no fewer |
| QueueRetention.KeptWithinPlatform | packages/location-core/src/queue.ts:433-461 | whatever the options, what is kept is within the platform's count, age and attempts, and within the options where they ask for less |
| QueueRetention.CapsExactly | packages/location-core/src/queue.ts:433-446 | each cap is the option in whole numbers, as near as the platform allows, or the platform limit without one |
| QueueRetention.DropReasonsExactly | packages/location-core/src/queue.ts:448-484 | a record goes for its attempts exactly if they are used up, for its age exactly if they are not and it was captured too long ago, and for capacity only if neither and what is kept is full and no older |
| QueueRetention.RetentionKeeps | packages/location-core/src/queue.ts:448-480 | nothing is unaccounted for and what is kept stays in order |
| QueueRetention.PruneIsIdempotent | packages/location-core/src/queue.ts:428-480 | pruning again at the same time drops nothing |
| QueueBackoff.ClampRetryIsProjection | packages/location-core/src/queue.ts:234-268 | every clamped policy is well formed, and a policy is unchanged by clamping if and only if it is well formed |
| QueueBackoff.ClampRetryReads | packages/location-core/src/queue.ts:234-268 | every field becomes the nearest point of its guardrail, from the default if missing or not finite, with the longest delay raised to the base delay and the attempts rounded |
| QueueBackoff.BackoffFollowsPlan | packages/location-core/src/queue.ts:280-292 | the plan is the base delay first and then the former delay times the multiplier, up to the ceiling; the delay is the rounded plan for a middle or broken draw, the plan × (1 - jitter) for 0, the plan × (1 + jitter) up to the ceiling for 1, and grows with the draw |
| QueueBackoff.BackoffBounded | packages/location-core/src/queue.ts:280-292 | for every draw, also a broken one, the delay is not negative and exceeds the ceiling by at most one half |
| QueueBackoff.CeilingHoldsExactly | packages/location-core/src/queue.ts:271-292 | the delay never exceeds the ceiling, for all attempts and draws, if and only if the ceiling does not round up |
| QueueBackoff.FractionalCeilingExceeded | packages/location-core/src/queue.ts:271-292 | a ceiling of 1000.5 ms, otherwise defaults, gives a delay of 1001 ms |
| QueueBackoff.BackoffGrows | packages/location-core/src/queue.ts:280-292 | for one draw, more failures never shorten the wait |
| OutboundQueues.InMemoryQueueStorage.List | packages/location-core/src/queue.ts:859-862 | the first records in queue order, independent of the map's own order |
| QueueModel.ConfigureExactly | packages/location-core/src/queue.ts:549-576 | every option of the queue is taken as it is, in whole numbers and as near as the platform limits allow |
| OutboundQueues.OutboundQueue.ReserveSequenceNumber | packages/location-core/src/queue.ts:582-587 | state and number are those of the step |
| OutboundQueues.OutboundQueue.Enqueue | packages/location-core/src/queue.ts:589-627 | state and result are those of the step, including the three rejections; `QueueHistory.EnqueueExactly` says what it does |
| OutboundQueues.OutboundQueue.PruneStored | packages/location-core/src/queue.ts:717-729 | removes from storage exactly what retention drops and returns what it keeps |
| OutboundQueues.OutboundQueue.Retain | packages/location-core/src/queue.ts:735-752 | bumps the records sent and removes those with no attempt left |
| OutboundQueues.OutboundQueue.OnSuccess | packages/location-core/src/queue.ts:754-790 | removes what was confirmed, retains the rest, and closes the gate for the minimum interval, as `QueueHistory.SuccessFates` spells out |
| OutboundQueues.OutboundQueue.OnFailure | packages/location-core/src/queue.ts:792-843 | drops, shrinks or retries by disposition, and sets the gate and the failure count accordingly; `QueueHistory.FailureFates` spells out which reason does what |
| OutboundQueues.OutboundQueue.Flush | packages/location-core/src/queue.ts:650-700 | for any upload function, state and result are those of the step |
| QueueFacts.SettledFacts | packages/location-core/src/queue.ts:735-843 | no answer touches a record outside the batch; inside it a record goes when confirmed, refused or spent, and otherwise stays with exactly one more attempt |
| QueueFacts.ConfirmedWithinBatch | packages/location-core/src/queue.ts:761-766 | only ids of the batch are ever confirmed: all of them, or those the server named |
| QueueFacts.PruneFacts | packages/location-core/src/queue.ts:717-729 | what retention leaves in storage is what it returns, within every cap and otherwise untouched |
| QueueFacts.SelectedFacts | packages/location-core/src/queue.ts:663-684 | a due flush submits nothing exactly if retention left nothing, and otherwise a nonempty part of it |
| QueueRuns.StepInv | packages/location-core/src/queue.ts:582-843 | every call keeps size within maxEvents, stored attempts below maxAttempts and sequence numbers below the next one |
| QueueRuns.RunInv | packages/location-core/src/queue.ts:582-843 | so every run does |
| QueueRuns.ReservedNumbersIncrease | packages/location-core/src/queue.ts:582-614 | a reserved number exceeds every number reserved or enqueued before it, with any calls in between |
| QueueRuns.ReservedIsNext | packages/location-core/src/queue.ts:582-587 | on every run a reserved number is zero or the one after a number reserved or enqueued before: none is skipped |
| QueueDrain.FlushDrains | packages/location-core/src/queue.ts:650-843 | for every answer, a flush that uploads lowers the sum of attempts left by at least the batch size; a due flush that does not upload leaves the queue empty |
| QueueDrain.DrainsWithin | packages/location-core/src/queue.ts:650-843 | with no new events, as many due flushes as there are attempts left empty the queue |
| QueueDrain.DrainsWithinEightEach | packages/location-core/src/queue.ts:650-843 | so eight for each pending record are enough |
| QueueDrain.UploadsBounded | packages/location-core/src/queue.ts:650-843 | on every run, uploads are at most the attempts at the start plus maxAttempts for each event taken in |
| QueueDrain.SubmittedAtMostMaxAttempts | packages/location-core/src/queue.ts:731-752 | an id enqueued once is submitted at most maxAttempts (at most 8) times |
| QueueConservation.StepConserves | packages/location-core/src/queue.ts:589-843 | every id that was pending or taken in stays pending or gets one ledger entry, never both |
| QueueConservation.FlushEntryEarned | packages/location-core/src/queue.ts:650-843 | confirmed and refused ids were in the batch this flush submitted and the server said so; a record given up had used up its attempts in it; nothing outside leaves but by age |
| QueueConservation.EnqueueEntryEarned | packages/location-core/src/queue.ts:600-619 | an enqueue drops a record only for age, or leaves a full queue in which none is older |
| QueueConservation.EveryEventAccountedFor | packages/location-core/src/queue.ts:589-843 | on any run with distinct ids, every accepted event is either pending or in the ledger once, and each entry was earned by one call of that run: confirmed by a batch that contained it, or dropped for its named cause |
| QueueConservation.EntriesEarned | packages/location-core/src/queue.ts:589-843 | from any balanced state, the entry a run ends with is the one that some call made, for its cause in the state that call found |
| QueueConservation.RunBalances | packages/location-core/src/queue.ts:589-843 | and no ledger entry is ever revised |
| QueueConservation.UploadedCountExactly | packages/location-core/src/queue.ts:761-788 | the reported count is never too low, and right exactly if the server repeated no id of the batch |
| QueueConservation.UploadedCountOverCounts | packages/location-core/src/queue.ts:761-788 | one record named twice is reported as two |
| QueuePacing.UploadsPaced | packages/location-core/src/queue.ts:654-661 | on any run whose flush times do not decrease, any two uploads are apart by at least the first one's wait, which is at least the minimum interval (30 s or more), and after a failure worth retrying at least the backoff for the streak and the server's hint |
| QueueHistory.AttemptsCountSubmissions | packages/location-core/src/queue.ts:600-608 | a pending record is its last enqueue's event, unaltered, and its attempt count is exactly the number of batches it has been in since |
| QueueHistory.EnqueueExactly | packages/location-core/src/queue.ts:589-627 | an event of another device, with no natural sequence number or no readable time is refused and changes nothing; any other is pending as submitted, unsent, in place of a record of its id, its number counts as issued, and only one too many makes retention drop anything |
| QueueHistory.UploadsExactlyWhenOpen | packages/location-core/src/queue.ts:650-669 | a flush uploads exactly if its time has come and retention left something, and before that changes nothing |
| QueueHistory.FailureFates | packages/location-core/src/queue.ts:193-843 | a validation failure, a prohibition or an earlier acceptance removes the whole batch; after any other reason exactly the records with an attempt left stay, with one more attempt and that reason; the batch size hint is halved exactly if the batch was too large; the gate closes for the longest of interval, backoff and hint, and after a refusal for the interval |
| QueueHistory.SuccessFates | packages/location-core/src/queue.ts:754-790 | exactly the records the server confirmed, all if it names none, and those without an attempt left go; the streak, the reason and the hint are forgotten and the gate closes for the interval |
| QueueHistory.IdleForgets | packages/location-core/src/queue.ts:671-687 | a due flush with nothing left to submit opens the gate and forgets streak, reason and hint |
| QueueHistory.BatchSizeAdapts | packages/location-core/src/queue.ts:809-817 | after a batch was too large the limit is half of it, never less than one; a success or a refusal restores the full size, and any other failure leaves it; with any enqueues, reservations and early flushes in between |
| QueueHistory.StreakWaitsGrow | packages/location-core/src/queue.ts:818-825 | for two successive unhinted failures and one draw, the gate never closes for a shorter time than before, whatever lies in between |
| QueueHistory.EarlyFlushRepeatsReason | packages/location-core/src/queue.ts:654-661 | a flush before the gate opens changes nothing and reports the reason of the upload that closed it, whatever was enqueued or reserved since |
| QueueRetries.RetryIsIdentical | packages/location-core/src/queue.ts:364-399 | after a retryable failure that exhausts no record, the same pending events with nothing aged out select the same events under the same key |
| QueueRetries.NextDueFlushRepeats | packages/location-core/src/queue.ts:650-843 | with only reservations and early flushes in between, the next due flush submits the identical batch under the identical key |
| QueueFairness.LongestServedExactly | packages/location-core/src/queue.ts:364-399 | at every batch size the batch holds a record that has waited longest if and only if the chosen device's lowest-numbered record has |
| QueueFairness.OutOfTurnPassesOver | packages/location-core/src/queue.ts:364-399 | three pending records of two devices, one numbered out of turn: the due flush submits the one that has waited least |
| QueueFairness.PassedOverCostsExactly | packages/location-core/src/queue.ts:650-843 | a due flush that passes a record over lessens the attempts left ahead of it if and only if it submits or drops a record that has waited as long |
| QueueFairness.NoStarvation | packages/location-core/src/queue.ts:364-399 | with every enqueue meanwhile in turn and later, more due flushes than the attempts left among the records that have waited as long submit a pending record, or it is gone |
| QueueFairness.PassedOverCosts | packages/location-core/src/queue.ts:364-399 | in a queue whose devices are in the order they have waited, every due flush that passes a record over does so |
| QueueFairness.OrderlyRun | packages/location-core/src/queue.ts:335-347 | runs that enqueue in turn keep each device's records in the order they have waited |
| QueueReopened.SpentNeverSubmitted | packages/location-core/src/queue.ts:663-668 | from any store, a flush submits only stored records with an attempt left |
| QueueReopened.PruneFromAny | packages/location-core/src/queue.ts:717-729 | over any store, what retention returns is stored and unspent, and a store over the cap always loses a record |
| QueueReopened.ReopenedSettles | packages/location-core/src/queue.ts:549-843 | a queue opened over any store, with whatever options, meets all its limits after one due flush more than there are records over the cap, and keeps them |
| TokenProtocol.SingleFlight | packages/api-client/src/tokens.ts:49-81 | over every interleaving at most one refresh is under way, plus one for each reset |
| TokenProtocol.ClearedOnlyByItself | packages/api-client/src/tokens.ts:75-77 | a flight stays joinable until its own finally or a reset: no other finally clears it |
| TokenProtocol.JoinerGetsTheOutcome | packages/api-client/src/tokens.ts:59-81 | over every interleaving, resets included, a caller that made or joined a flight is answered once its finally has run, and with the outcome of that flight's own settle |
| TokenProtocol.JoinersShareTheResult | packages/api-client/src/tokens.ts:59-81 | any two callers that joined one flight anywhere in a run are told the same |
| TokenProtocol.AnsweredAtOnceExactly | packages/api-client/src/tokens.ts:49-57 | over every interleaving, a caller is told null at once exactly if no refresh is configured, and a token at once exactly if one was issued since the last reset and is not the one it presents: the last such token |
| TokenProtocol.JoinsLiveFlightsOnly | packages/api-client/src/tokens.ts:59-87 | over every interleaving, a caller only joins a flight whose finally has not run and that was made since the last reset |
| TokenProtocol.SpentAtMostOnce | packages/api-client/src/tokens.ts:53-81 | without resets and with fresh tokens, each stale token is spent, on a flight not yet settled, in at most one successful refresh |
| TokenProtocol.LateJoinerGetsItsOwnToken | packages/api-client/src/tokens.ts:53-77 | over every interleaving without resets, between then and finally a caller joins exactly if it presents the token just issued, and gets that token back |
| TokenProtocol.LateJoinHappens | packages/api-client/src/tokens.ts:53-77 | a run of five steps in which that happens |
| TokenProtocol.ResetForgetsExactly | packages/api-client/src/tokens.ts:83-87 | no old flight can store a token after a reset if and only if none was pending at it |
| TokenProtocol.OldTokenSurvivesReset | packages/api-client/src/tokens.ts:62-87 | a run of four steps that ends with the old session's token stored |
| TokenManagers.TokenManager.Refresh | packages/api-client/src/tokens.ts:49-81 | the fields and the reply are those of the protocol's call step |
| TokenManagers.TokenManager.OnSettle | packages/api-client/src/tokens.ts:64-74 | those of its settle step: only an issued token is remembered |
| TokenManagers.TokenManager.OnFinally | packages/api-client/src/tokens.ts:75-77 | those of its finally step |
| TokenManagers.TokenManager.Forget | packages/api-client/src/tokens.ts:84-87 | those of its reset step |
| RequestTiming.WaitBounded | packages/api-client/src/retry.ts:65-82 | for every draw within the swing, as in [0, 1], a wait is at most the rounded plan × (1 + jitter); the plan is a hint up to its ceiling, or else the base delay multiplied once for each attempt after the first, up to the longest |
| RequestTiming.WaitAtLeast | packages/api-client/src/retry.ts:65-82 | for every draw that is not negative it is at least the rounded plan × (1 - jitter) |
| RequestTiming.WaitFollowsPlan | packages/api-client/src/retry.ts:65-82 | both ends are reached, the middle draw and no jitter give the rounded plan, and the wait grows with the draw |
| RequestTiming.PlanRecurs | packages/api-client/src/retry.ts:65-73 | unhinted, the plan starts with the base delay up to the longest, and each later one is the former times the multiplier up to the longest, unless the multiplier shrinks it |
| RequestTiming.DefaultThirdWait | packages/api-client/src/retry.ts:9-82 | with the client's own policy the third failure is followed by 1000 ms, from 800 to 1200 by the draw |
| RequestTiming.DrawBoundedExactly | packages/api-client/src/retry.ts:78-81 | a draw respects that bound for every hint and ceiling if and only if it is within the swing; draws above 1 only without jitter |
| RequestTiming.HighDrawExceedsBound | packages/api-client/src/retry.ts:78-81 | with a jitter of 0.2 a draw of 2 waits 96 s where the bound is 72 s |
| RequestTiming.RetryAfterCeilingExactly | packages/api-client/src/retry.ts:17-81 | hinted waits stay within the ceiling for all hints and draws if and only if the ceiling absorbs the jitter |
| RequestTiming.DefaultCeilingExceeded | packages/api-client/src/retry.ts:9-18 | with the default ceiling of 60 s and jitter of 0.2, a hint of 60 s gives a wait of 69.6 s |
| RequestLoop.Request | packages/api-client/src/client.ts:159-306 | for any world, the loop terminates and makes exactly the specified exchanges, and its outcome is the last one's |
| RequestLoop.FetchesBounded | packages/api-client/src/client.ts:178-306 | at most max(1, maxAttempts) + 1 fetches |
| RequestLoop.RefreshedAtMostOnce | packages/api-client/src/client.ts:242-260 | at most one refresh call |
| RequestLoop.NeverGivesUpEarly | packages/api-client/src/client.ts:213-296 | a failure is final only if its status is none of 408, 425, 429 and 500 or above, or the attempts are used up; and a 401 is met with the refresh first, if there is one |
| RequestLoop.RequestRunsWell | packages/api-client/src/client.ts:159-306 | for any world, the request id and idempotency key given or first generated throughout, every wait between its bounds for the hint in force, the header's before the envelope's seconds × 1000, only 408, 425, 429, 500 and above and transport failures retried, attempt numbers counting up by one for each retry, a refresh followed exactly if it came back, and authentication loss announced exactly on a final 401 |

## Left out

- TokenProtocol.SpentAtMostOnce: does not count a caller that joins after the flight has settled; such a caller presents the token just issued, as `TokenProtocol.LateJoinerGetsItsOwnToken` says.
- EncryptionServices.EncryptionService.EncryptCoordinates: does not model the erasure of the local payload buffer, which no caller can see.
- QueueFairness.NoStarvation: assumes that what is enqueued meanwhile is in turn: strictly later, and with a sequence number above its device's pending ones; out of turn it does not hold, as the list above says.
- QueueReopened.ReopenedSettles: assumes that stored sequence numbers have been issued by the stored meta record.
- RequestTiming.DrawBoundedExactly: takes draws to be finite numbers.
- RequestLoop.FetchesBounded: takes `maxAttempts` to be finite; with an infinite one the loop need not end.
- QueueRuns.ReservedNumbersIncrease: needs queue calls to run one at a time, because flush writes back the meta it read before the upload.
- Interleaving inside queue flush and inside encrypt and decrypt, where the meta write-back and a cached buffer held across an await are not safe.
- `sanitizeFailureReason`: an error is modelled as the reason it is reduced to; a thrown error is a failure without a hint.
- QueueSelection.KeyIdentifiesBatch: assumes an injective hash, where the FNV hash is an arbitrary function of the key material; and ids without a colon, as UUIDs are, without which it does not hold.
- EnvelopeSpec.OpensExactlyUnderOwnContext: takes authentication as absolute for the two contexts at hand, where AES-GCM gives it with overwhelming probability.
- AEAD, the key service, strict base64, the schemas, and the coordinate codec are functions with stated laws; `UNSUPPORTED_ALGORITHM` cannot occur, as the record schema already refuses other algorithms.
- ISO-8601 parsing: an event carries its capture time as text and as parsed milliseconds, if it parses; floating-point rounding of times and delays.
- Queue storage other than the in-memory reference, and meta records it did not write; sequence numbers that are not natural numbers beyond their rejection in enqueue; `pending` and `nextAttemptAtMs`, which only read.
- Clock values that are not finite in the cache and in the queue, and an eviction hook that throws.
- Strings are sequences of Unicode scalar values, so lone surrogates, on which `encodeURIComponent` throws, do not occur.
- Base configurations whose numbers are not finite; `resolveTrackingPolicy` and `TRACKING_POLICY`, a table and a four-line overlay.
- The fields of a tracking context that no decision reads, and `effectiveSharingStatus`, `permissionDegradations` and other read-only projections.
- HTTP headers other than identity and attempt, abort deadlines, parsing of Retry-After dates, response bodies and log lines.
- Infrastructure, application configuration, design system, observability, and the App Store client outside signature conversion.
