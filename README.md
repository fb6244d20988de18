# URL shortener core, modelled in Dafny

This project models the core of a URL shortener written in Go. The shortener maps a long
URL to a 7-character short code and resolves a code back to the URL.

- **Repository port** (`ports.dfy`, module `Ports`). Every store offers `Save`, `Get` and
  `IncrementAccessCount` over a table from short code to `URL` record. The module states
  these three operations as functions on that table and proves what they promise.
- **In-memory store** (`memory.dfy`, class `Memory.MemoryRepository`). A class with one
  `urls` map field. Each method is one atomic step: an upsert, a lookup that fails with
  `NotFound`, and a read-modify-write of one access count.
- **Calls through the port** (`tier.dfy`, module `Tier`). A store can also be remote and
  unreachable. Each call therefore takes a `Fault` that says what the transport does:
  `None` means the call reaches the store; `Some(e)` means it fails with `e`, a store
  error (`NotFound` or `Unavailable`), and leaves the store untouched.
- **Tiered repository** (`cached.dfy`, class `Cached.CachedRepository`). A cache store sits
  in front of a persistent store.
  - `Save` and `IncrementAccessCount` act on the persistent store first. Only on success
    do they queue a cache write.
  - `Get` reads the cache first. On a miss or a cache error it falls back to the
    persistent store, and after a persistent hit it queues a cache repair.
  - The background goroutines are an explicit `pending` queue. `Flush` runs that queue on
    the cache and discards each write's answer.
  - Two invariants are proved. `Shadowed` (the cache holds no code the persistent store
    lacks) holds under every pattern of faults and in every order the queued writes
    may run. `Coherent` (once the queue has run, every cached record equals the
    persistent one) holds only while the cache's own writes succeed and run in launch
    order. `Cached.ReorderedRepairLeavesStale` shows that a repair write and an
    increment run in the opposite order leave the cache one access behind.
- **Short-code generation** (`shortcode.dfy`, module `ShortCode`). SHA-256, the hashids
  encoder and base64 are foreign calls, passed in as a `Codec`. The model spells out the
  rest: the hashed message `url-salt`, the choice of the first four digest bytes, and the
  clamp to `ShortCodeLength`.
- **URL service** (`service.dfy`, class `Service.URLService`).
  - `Shorten` is the bounded loop over salt indices 0..9. It is proved against the
    recursive specification `SearchFrom`, and lemmas characterise how that search ends.
  - `GetOriginalURL` looks a code up, then runs the access-count increment and discards
    its answer.

Where the intended design and the code disagree, the model follows the code:

- `Shorten` accepts a candidate when the store's `Get` answers any error, not only
  `NotFound`. `Service.ProbeErrorChoosesTakenCode` shows that a failed probe of a code
  that is already stored selects that code. The following `Save` then replaces the
  existing record.
- The in-memory store has no `Corrupt` error and no expiry.

## Model

| member | source | states |
|---|---|---|
| Ports.Lookup | internal/adapters/repository/memory/memory.go:31-35 | Get answers a record exactly when the code is present, the one filed under it (whose code, in a well-keyed table, is the code asked for); otherwise NotFound |
| Ports.Upsert | internal/adapters/repository/memory/memory.go:24 | Save's table holds the old codes plus the record's own, and the record is filed under its code |
| Ports.Incremented | internal/adapters/repository/memory/memory.go:41-44 | the increment never adds or removes a code |
| Ports.IncrementError | internal/adapters/repository/memory/memory.go:41-46 | the increment fails exactly where Get fails, and with Get's error |
| Ports.Probe | internal/core/ports/ports.go:7 | across a healthy transport Get is the store's lookup; a transport fault is answered as it is; a success always comes from the store's own entry |
| Ports.GetAfterSave | internal/adapters/repository/memory/memory.go:21-35 | after Save(u), Get(u's code) answers exactly u |
| Ports.SaveIsUpsert | internal/adapters/repository/memory/memory.go:24 | saving twice under one code equals saving the later record once; the second save adds no entry, and the first adds one only for a new code |
| Ports.SaveLeavesOthers | internal/adapters/repository/memory/memory.go:24 | Save leaves Get of every other code unchanged |
| Ports.SaveKeepsKeying | internal/adapters/repository/memory/memory.go:24 | after Save every record is still filed under its own short code |
| Ports.GetAbsent | internal/adapters/repository/memory/memory.go:31-34 | Get of an absent code answers NotFound |
| Ports.IncrementPresent | internal/adapters/repository/memory/memory.go:41-44 | on a present code the increment succeeds, raises that record's access count by exactly 1, keeps its other fields, the key set and every other record |
| Ports.IncrementAbsent | internal/adapters/repository/memory/memory.go:41-46 | on an absent code the increment answers NotFound and leaves the table unchanged |
| Ports.IncrementKeepsKeying | internal/adapters/repository/memory/memory.go:41-43 | the increment keeps every record filed under its own code |
| Memory.MemoryRepository.constructor | internal/adapters/repository/memory/memory.go:15-19 | a new store is empty |
| Memory.MemoryRepository.Save | internal/adapters/repository/memory/memory.go:21-26 | never fails; the new table is the old one with the record upserted under its code |
| Memory.MemoryRepository.Get | internal/adapters/repository/memory/memory.go:28-36 | succeeds exactly when the code is present, with the record filed under it (whose code is that code); otherwise NotFound; the table is only read |
| Memory.MemoryRepository.IncrementAccessCount | internal/adapters/repository/memory/memory.go:38-47 | answers nil exactly when the code is present, else NotFound; the new table is the old one with that record counted once more |
| Tier.Save | internal/core/ports/ports.go:6 | a Save across a transport answers the transport's error and leaves the store untouched, or reaches the store and upserts |
| Tier.Get | internal/core/ports/ports.go:7 | a Get across a transport answers the transport's error or the store's lookup; a found record carries the code asked for |
| Tier.IncrementAccessCount | internal/core/ports/ports.go:8 | an increment across a transport answers the transport's error with the store untouched, or the store's answer and effect |
| Cached.Apply | internal/adapters/repository/cached/cached.go:28-32 | one background write adds no code other than its own, and a failed one leaves the cache as it was |
| Cached.ApplyAll | internal/adapters/repository/cached/cached.go:28-32 | background writes that all fail leave the cache as it was |
| Cached.RunWrite | internal/adapters/repository/cached/cached.go:49-53 | one goroutine's cache write changes the cache exactly as `Apply` says, whatever it answers |
| Cached.ShadowedInAnyOrder | internal/adapters/repository/cached/cached.go:28-32 | in whatever order the launched cache writes run, and whatever their transport does, they bring in no code outside the persistent store's |
| Cached.ReorderedRepairLeavesStale | internal/adapters/repository/cached/cached.go:49-53 | a repair Put followed by the mirrored increment leaves the cache equal to the persistent table; the same two writes in the other order leave it one access behind |
| Cached.ApplyAllWithin | internal/adapters/repository/cached/cached.go:28-32 | background cache writes, under any faults, bring into the cache no code other than those they carry |
| Cached.PutVisibleAfterFlush | internal/adapters/repository/cached/cached.go:49-53 | once a queued repair has run on a healthy transport, and no later write touched its code, the cache holds exactly that record |
| Cached.ApplyAllSnoc | internal/adapters/repository/cached/cached.go:28-32 | a write launched later runs after the ones already queued |
| Cached.MirroredPutKeepsPart | internal/adapters/repository/cached/cached.go:24-32 | mirroring a persistent save into a cache that is part of the persistent table keeps it a part |
| Cached.MirroredBumpKeepsPart | internal/adapters/repository/cached/cached.go:59-67 | mirroring a persistent increment into such a cache keeps it a part |
| Cached.CachedRepository.constructor | internal/adapters/repository/cached/cached.go:16-21 | composes the two given stores with no background write pending |
| Cached.CachedRepository.Save | internal/adapters/repository/cached/cached.go:23-35 | answers the persistent store's answer, whatever the cache does; on failure nothing changes and no cache write is launched; on success the persistent table is upserted and one cache write is queued; the cache is untouched; Shadowed and Coherent are kept |
| Cached.CachedRepository.Get | internal/adapters/repository/cached/cached.go:37-56 | on a cache hit answers the cached record and queues nothing; otherwise answers the persistent store's Get, queuing a repair with that record exactly on success; never writes the persistent store; keeps both stores valid; with Shadowed and a reachable persistent store it succeeds exactly when the persistent store has the code; with Coherent and nothing queued it answers the persistent store's lookup |
| Cached.CachedRepository.IncrementAccessCount | internal/adapters/repository/cached/cached.go:58-70 | answers the persistent store's answer, whatever the cache does; on failure nothing changes; on success the persistent record is counted once more and one cache increment is queued; Shadowed and Coherent are kept |
| Cached.CachedRepository.Flush | internal/adapters/repository/cached/cached.go:28-32 | runs every queued cache write in launch order under the given faults, discarding their answers; the persistent store is untouched; Shadowed is kept, and Coherent too when no write failed (for this launch order only) |
| ShortCode.Decimal | internal/core/services/url_service.go:74 | the salt is written as a non-empty string of decimal digits |
| ShortCode.DecimalRoundTrip | internal/core/services/url_service.go:74 | reading back the written salt gives the salt |
| ShortCode.HashInputLayout | internal/core/services/url_service.go:74 | the hashed message is the URL, a dash, and a decimal numeral that reads back as the salt |
| ShortCode.HashInputInjective | internal/core/services/url_service.go:74 | distinct (URL, salt) pairs give distinct messages to hash |
| ShortCode.Generate | internal/core/services/url_service.go:71-103 | a generated code is exactly ShortCodeLength = 7 characters; an encoder failure answers GenerationFailed |
| Service.SearchFrom | internal/core/services/url_service.go:33-56 | a search from index i that chooses or fails stops at an index between i and MaxRetries - 1 = 9, whose code was generated (when chosen) or whose generation failed |
| Service.SearchChosen | internal/core/services/url_service.go:33-52 | the chosen index lies below MaxRetries = 10; its candidate's probe failed; every lower index was generated and its probe found a record |
| Service.SearchGenerationError | internal/core/services/url_service.go:33-37 | the search stops at the first index whose encoding fails, after collisions only |
| Service.ExhaustedOnlyIfAllCollide | internal/core/services/url_service.go:33-56 | an exhausted search met a collision at each of the 10 indices |
| Service.AllCollideExhausts | internal/core/services/url_service.go:33-56 | when all 10 candidates collide the search is exhausted |
| Service.FreshCodeWhenHealthy | internal/core/services/url_service.go:40-52 | on a healthy transport the chosen code is absent from the store, so its Save adds exactly one entry |
| Service.ProbeErrorChoosesTakenCode | internal/core/services/url_service.go:40-52 | when every earlier candidate collides, a failed probe of candidate k, a code already in the store, selects that code at index k |
| Service.ResolvedAddsN | internal/core/services/url_service.go:59-66 | after n serialized successful resolutions a record's access count is n higher and nothing else changed |
| Service.URLService.constructor | internal/core/services/url_service.go:26-30 | the service keeps the store and encoders it is given |
| Service.URLService.Shorten | internal/core/services/url_service.go:32-57 | follows the search over indices 0..9. A chosen code is saved as a new record with the input URL, the given id and time, and access count 0, which is returned, or the Save's error is returned with the store unchanged. A generation failure or exhaustion answers its error and saves nothing |
| Service.URLService.GetOriginalURL | internal/core/services/url_service.go:59-69 | answers the stored record's original URL or the store's error; on success the increment runs and the record is counted once unless that call fails; on failure the store is unchanged |
| Service.ShortenThenResolve | internal/core/services/url_service.go:32-69 | on a healthy transport a successful Shorten gives a 7-character code; resolving it answers the input URL and counts the record once; the only possible failures are GenerationFailed and RetriesExhausted |

## Left out

- Concurrency. The mutex is dropped and each store method is one atomic step. The
  goroutines become the `pending` queue, which `Flush` runs in launch order; in Go they
  may run in any order and interleave with later requests. Lost updates between
  concurrent increments are not modelled.
- Service.URLService.GetOriginalURL: the background increment runs at once and its answer
  is discarded. It is not deferred.
- The Redis store: JSON encoding, its `Corrupt` decoding error and TTL expiry. Any tier is
  an in-memory store reached through `Tier`, whose `Fault` parameter models a remote
  store that can fail.
- Tier.Save: a failed call leaves the store untouched. A remote write that takes effect
  but whose reply is lost is not modelled.
- SHA-256, the hashids encoder (secret salt "this is my salt") and base64 are foreign
  calls and come in as the `Codec`. The model assumes the encoder honours its configured
  minimum length of 7 (`Hashid`) and that base64 of a 32-byte digest is 44 characters
  (`Base64Text`). The message is hashed as a character string; the UTF-8 byte conversion
  is left out.
- `uuid.New()` and `time.Now()` become the `id` and `now` parameters of `Shorten`.
- Logging, the HTTP handler, status-code mapping, metrics and process wiring.
- Error texts. Go errors are strings; the model has four kinds (`NotFound`, `Unavailable`,
  `GenerationFailed`, `RetriesExhausted`). The wrapping texts of `Shorten`'s errors are
  left out.
- `AccessCount` is a Go `int`; here it is unbounded, so 64-bit wrap-around is not modelled.
- Service.URLService.Shorten: the service runs over one store reached through the port,
  not over a `CachedRepository`, because the model has no interface type to pass either.
  The tiered repository's own contracts show how it answers relative to its persistent
  store.
- Cached.CachedRepository.Flush: runs the queued writes in launch order. The Go
  goroutines carry no order, so `Coherent` is proved only for that order;
  `Cached.ReorderedRepairLeavesStale` shows the stale cache the other order leaves.
  `Shadowed` is proved for every order (`Cached.ShadowedInAnyOrder`).
- Cached.CachedRepository.constructor: requires two distinct store objects and stores
  that keep records under their own codes. The source accepts any two stores, the same
  one twice included.
