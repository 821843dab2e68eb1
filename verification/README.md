# MicroAI Paygate: a verified model of the payment protocol

MicroAI Paygate sells AI summaries per request.  A client is challenged with 402, signs a payment
context, retries, and receives the summary with a signed receipt.  Whether that is sound depends
on time windows, retention windows, lazily cleaned stores and interleavings.  This project models
those parts and proves, for every run, what they are meant to guarantee.

`dafny verify dfyconfig.toml` checks everything.

| file | models |
|---|---|
| `RateLimit.dfy` | the token-bucket limiter and the Retry-After rule |
| `ReplayGuard.dfy` | the verifier: freshness window, nonce stores (memory, Redis), decision order |
| `Gateway.dfy` | handler, cache, provider, timeout, receipt store and verifier as one step system, and payment |
| `GatewayCache.dfy` | what the response cache serves in the runs of that system |
| `GatewayProgress.dfy` | what the gateway does for a client that does everything right, and tells one that does not |
| `GatewayReceipts.dfy` | the receipt of every 200: issued, stored, retrievable, accepted by the SDK |
| `TimeoutLayer.dfy` | the buffered writer racing a deadline, nested to any depth |
| `Json.dfy`, `Receipts.dfy` | receipt encoding, issuing, and verification in the SDK |
| `ReceiptStore.dfy` | the in-memory receipt store, split at its locks and as a heap object |
| `BrowserFlow.dfy` | overlapping asynchronous runs of the browser hook |
| `ReceiptHistory.dfy` | the capped receipt history in localStorage and its snapshot cache |
| `Wrappers.dfy`, `Clock.dfy` | `Option`; the unit of time |

## How the model is set up

- **Time** is integer nanoseconds.  Limiter tokens are counted in 1/(60 * 10^9) token, so a rate of
  `rpm` per minute refills exactly `rpm` units per nanosecond and no rounding is introduced.
  Clock readings are arguments.  They are nondecreasing along a run, except that a sweep may act on
  an older reading, as it does in the source.
- **Interleaving.**  Each critical section is one step; a run is any sequence of steps, and a step
  that is not possible in a state does nothing, so every theorem about runs ranges over all event
  sequences.
- **Verifier clocks.**  One request reads the wall clock and the monotonic clock at one instant; the
  wall clock is the monotonic clock plus a fixed offset, and replicas share it.
- **Hashes, signatures, codecs** are arbitrary function-valued parameters.  What a theorem needs of
  them, it names, and only of the values at hand: that the texts hashed in the run do not collide,
  that the signature at hand was made by the gateway and does not fit a second text, or that decoding
  undoes encoding.  The results about payment and replay assume nothing of any hash.
- **Strings** are UTF-16 code units.  A Go string may hold bytes that are not valid UTF-8; a lone
  surrogate stands for one such byte, `json.Marshal` prints it as U+FFFD, and the verifier and the
  client are given what they read from the JSON sent to them.
- **Imperative parts** (`TokenBucket`, `MemoryNonceStore`, `BufferedWriter`, `InMemoryReceiptStore`,
  `X402Flow`, `ReceiptStorage`) are classes whose methods are tied to the step functions that the
  theorems are about.

## What the proofs show about the code

- Sweeping idle buckets is invisible, the window bound holds, refused calls leave no trace, and no
  more than a reported remaining count is granted at its instant, each **if and only if** a bucket idle for longer than
  the cleanup interval has refilled: `rpm * (ttl + 1 ns) >= burst`.  Nothing in `NewTokenBucket`
  enforces this; the default configuration satisfies it.  In runs without sweeps lazy refill equals
  continuous refill under any configuration.
- The Retry-After value is sufficient **if and only if** the burst is at least 2 or the rate is at
  least one token per second.  A burst of one at a slower rate sends clients back up to a second too
  early, because both clock readings are floored (`RetriedTooEarly` is a concrete run).
- The nonce retention is safe **if and only if** it exceeds expiry + skew.  The `+ 1` in
  `nonce_retention_ttl` is therefore exactly what is needed, and it is lost only if the saturating sum
  saturates.
- Two different models share a cache key for some two non-empty texts **if and only if** one model name
  ends in a colon followed by the other, so the comment that including the model prevents collisions holds for one
  fixed model, not across all names.
- The SDK verifies a genuine receipt **if and only if** every string in it is valid UTF-8 and contains
  none of `<`, `>`, `&`, U+2028 and U+2029.  Go's encoder escapes those five and replaces invalid
  bytes, `JSON.stringify` does neither, so the SDK hashes other bytes than were signed.  The nonce,
  which a client chooses, is one of those strings; the single byte 0xFF is enough to fail.
- Receipts name the one route that issues them, `/api/ai/summarize`, however a request got there.  The
  endpoint check of the SDK therefore passes **if and only if** the path given to the client is that
  route up to a `?` or `#`, with or without the leading slash.  A path that a URL parser or the server
  rewrites on the way (a backslash, a percent-encoded letter, a dot segment, a control character)
  is served, paid for and then reported as a mismatch.  Where nothing, no proxy either, rewrites the
  path, it matches **if and only if** `gatewayUrl` has no path of its own: `http://host/api` with
  `/ai/summarize` reaches the route and fails the check.
- A receipt pushed beyond the twentieth place of the history is lost even if an entry before it is
  removed later; everything else that was saved and not removed is listed (`ListedIff`).

## Model

| member | source | states |
|---|---|---|
| `RateLimit.RunKeepsInv` | gateway/ratelimit.go:63-178 | over every run stored tokens stay within [0, burst] and no bucket is stamped in the future |
| `RateLimit.LevelComposes` | gateway/ratelimit.go:86-91 | refilling in two instalments is refilling once, and levels never fall by waiting |
| `RateLimit.DeletionIsUnobservable` | gateway/ratelimit.go:81-178 | deleting any choice of evictions, queries and refused calls from a run changes no remaining answer, for any limiter if the run has no sweep |
| `RateLimit.CallsDeletableIff` | gateway/ratelimit.go:81-178 | with the sweeps left in place, queries and refused calls can be deleted from all runs exactly when an idle bucket is a full one |
| `RateLimit.SweepsUnobservableFrom` | gateway/ratelimit.go:155-178 | from any store, two runs that differ only in their sweeps give the same answers |
| `RateLimit.SweepsUnobservableIff` | gateway/ratelimit.go:155-178 | sweeps are unobservable in all runs exactly when an idle bucket is a full one |
| `RateLimit.WindowBound` | gateway/ratelimit.go:63-178 | in every run, sweeps anywhere, at most burst + rate*(t-s) is granted to a key within [s,t] |
| `RateLimit.WindowBoundIff` | gateway/ratelimit.go:63-178 | the window bound holds for all runs exactly when an idle bucket is a full one |
| `RateLimit.RemainingIsGranted` | gateway/ratelimit.go:102-118 | if k remain, later calls asking for at most k in all are granted, whatever other keys, queries and sweeps do |
| `RateLimit.RemainingIsExhausted` | gateway/ratelimit.go:102-118 | once exactly k were taken at that instant the next call is refused, among any sweeps of other keys, and of this one if idle means full |
| `RateLimit.RemainingIsExhaustedIff` | gateway/ratelimit.go:102-178 | sweeps of the key itself never let more than the reported count through exactly when an idle bucket is a full one |
| `RateLimit.ResetTimeBrackets` | gateway/ratelimit.go:120-144 | the bucket is full from one second after the reported reset second and not full before it; for a full bucket it is the second of the query |
| `RateLimit.RetryAfterSuffices` | gateway/main.go:790-799 | with nothing granted in between, a request at least the advertised seconds later is allowed (section 10.2.3 of RFC 9110) |
| `RateLimit.RetryAfterIsNotExcessive` | gateway/main.go:790-799 | an advertised wait of more than one second ends no later than a second until which the bucket is not full, over any run without grants |
| `RateLimit.RetryAfterSufficesIff` | gateway/main.go:726-799 | the exact condition under which waiting as told, through any run without grants, always suffices after a 429 (section 4 of RFC 6585) |
| `RateLimit.RetriedTooEarly` | gateway/main.go:790-799 | the run that refuses an obedient client whenever that condition fails |
| `RateLimit.TokenBucket.constructor` | gateway/ratelimit.go:42-60 | non-positive rates and bursts become 1 |
| `RateLimit.TokenBucket.GetBucket` | gateway/ratelimit.go:63-73 | an unknown key gets a full bucket, a known one is left alone |
| `RateLimit.TokenBucket.Allow` | gateway/ratelimit.go:81-100 | answer and new state are those of the step function, with both clock readings of the source |
| `RateLimit.TokenBucket.Remaining` | gateway/ratelimit.go:103-118 | the floored level, also for a key without a bucket |
| `RateLimit.TokenBucket.ResetTime` | gateway/ratelimit.go:121-144 | the reset second of the step function, which ResetTimeBrackets bounds from both sides |
| `RateLimit.TokenBucket.RetryAfterSeconds` | gateway/main.go:791-799 | the advertised wait, at least one second, which RetryAfterSuffices and RetryAfterIsNotExcessive bound from both sides |
| `RateLimit.TokenBucket.Sweep` | gateway/ratelimit.go:164-175 | the loop removes exactly the stale buckets, and is a run of single evictions |
| `ReplayGuard.FreshIff` | verifier/src/main.rs:425-446 | on 64-bit values saturation never changes the verdict: the window is now-expiry to now+skew, and a miss is reported as missing, future or expired, with its age |
| `ReplayGuard.VerifyDecides` | verifier/src/main.rs:553-780 | accepted exactly when well signed, nonce available and store answering, with the recovered address; reuse and an unavailable store likewise; only well-signed requests touch the store |
| `ReplayGuard.RejectionDecides` | verifier/src/main.rs:553-780 | wrong chain, bad timestamp, bad typed data and bad signature, in that order, each exactly when it is the first thing wrong |
| `ReplayGuard.ClaimEffect` | verifier/src/main.rs:493-547 | a claim that takes its digest holds it for the retention even if the reply is lost; a refused one or one not applied changes nothing any later claim can see |
| `ReplayGuard.ClaimHolds` | verifier/src/main.rs:493-539 | a claimed digest stays held, under sweeps, other claims and Redis failures, until its retention has run out |
| `ReplayGuard.AcceptedGap` | verifier/src/main.rs:493-547 | once a request has taken its nonce, even if it never learnt so, a whole retention passes before one with that nonce is accepted |
| `ReplayGuard.AcceptedIff` | verifier/src/main.rs:425-547 | over every run, for either store and any failures, a request is accepted exactly when it is well signed, the store answers and the last hold on its nonce has run out |
| `ReplayGuard.ReplaySafety` | verifier/src/main.rs:425-547 | two accepted requests with one nonce carry strictly increasing timestamps |
| `ReplayGuard.AcceptedTwice` | verifier/src/main.rs:465-472 | with a retention of expiry + skew or less a run accepts one context twice, if one payment can be signed at all |
| `ReplayGuard.RetentionIsTight` | verifier/src/main.rs:425-547 | no run accepts a context twice exactly when the retention exceeds expiry + skew |
| `ReplayGuard.SourceRetentionSafeIff` | verifier/src/main.rs:465-472 | the retention of the source is safe exactly when its sum does not saturate |
| `ReplayGuard.LazySweepUnobservable` | verifier/src/main.rs:461-510 | the swept map answers every claim like a map that never evicts |
| `ReplayGuard.RunBoundsAge` | verifier/src/main.rs:474-487 | after every run no stored entry is as old as ttl + 60 s |
| `ReplayGuard.ExactlyOneClaimSucceeds` | verifier/src/main.rs:474-510 | any number of claims of one nonce within one ttl, interleaved with sweeps, in any clock order, succeeds exactly once |
| `ReplayGuard.MemoryNonceStore.constructor` | verifier/src/main.rs:190-195 | an empty store, last swept at its creation |
| `ReplayGuard.MemoryNonceStore.MaybeEvictExpired` | verifier/src/main.rs:474-487 | sweeps at most once a minute, removing exactly the expired entries |
| `ReplayGuard.MemoryNonceStore.ClaimNonce` | verifier/src/main.rs:493-510 | grants exactly when no live entry holds the digest, and keeps the age bound |
| `Gateway.PayPerResponse` | gateway/main.go:429-610 | every 200 is paid by a verifier acceptance of that request's own signature, nonce and timestamp for the configured price, and no two share one |
| `Gateway.GenerateOnlyAfterAcceptance` | gateway/main.go:483-532 | the provider is called only for accepted requests |
| `Gateway.OneResponsePerContext` | gateway/cache.go:116-183 | no two 200s agree in timestamp and nonce as the verifier reads it, on hit and miss paths together, with lost replies and late verifier runs |
| `Gateway.ResponseCarriesResult` | gateway/main.go:617-624 | the response body has one member, named result, from which the result is read back |
| `GatewayProgress.OpensIff` | gateway/cache.go:40-131 | the verifier is asked exactly when signature, nonce, timestamp and body are there; 402, 413 and 400 otherwise |
| `GatewayProgress.PaidRequestIsServed` | gateway/main.go:429-544 | from every reachable state, with any events of others in between, an accepted request the cache does not hold gets a 200 with the provider's result and a receipt naming its payer, and is cached |
| `GatewayProgress.HitIsServed` | gateway/cache.go:117-183 | an accepted request the cache holds gets a 200 with the cached text and such a receipt, without a provider call |
| `GatewayProgress.RefusedIsTold` | gateway/main.go:483-505 | a request the verifier refuses gets 409, 403, 400 or 502 by its ruling, and no receipt |
| `GatewayProgress.FailuresAreTold` | gateway/main.go:483-532 | a lost verifier reply, a failing provider and a passing deadline are answered with 502 or 504 |
| `GatewayProgress.UnstoredIsTold` | gateway/main.go:627-636 | a receipt that cannot be generated or stored turns the answer into 500 |
| `GatewayProgress.WriteFillsCache` | gateway/cache.go:210-280 | a write that lands is found under its key, one that is lost or expires is not |
| `GatewayCache.CacheAgreesWithGeneration` | gateway/cache.go:103-280 | a 200 carries a result the provider returned for exactly that text, for every interleaving of delayed and lost writes, unless two texts of the run collide |
| `GatewayCache.KeyDeterminesText` | gateway/cache.go:227-238 | for one model the hashed text determines the request text |
| `GatewayCache.ModelsCollideIff` | gateway/cache.go:227-238 | any two different models share the hashed text of some non-empty texts exactly when one name ends in a colon and the other |
| `GatewayReceipts.ReceiptPerResponse` | gateway/receipt.go:57-84 | every 200 carries a receipt of its own that passes `validateReceipt` and states the payer the verifier recovered, the configured recipient, amount, token and chain, the request's nonce, the route and the hashes of both bodies |
| `GatewayReceipts.PaidIsServed` | gateway/main.go:615-649 | with a sound configuration a paid handler that holds a result never fails its receipt checks and completes with 200 |
| `GatewayReceipts.ReceiptIsRetrievable` | gateway/receipt_store.go:35-79 | in every run a lookup decided by the expiry of an issued receipt answers with it, and a later one with nothing, if no later receipt drew its id |
| `GatewayReceipts.ClientDecides` | sdk/typescript/src/client.ts:153-224 | the receipt of every 200 of every run, presented with any path, request body and response text, is a mismatch exactly unless the path is the route and both texts hash alike, and then verified exactly if plain and valid UTF-8 |
| `TimeoutLayer.SingleResponse` | gateway/middleware.go:151-228 | for every interleaving and depth the client receives the handler's complete response or one 504 (section 15.6.5 of RFC 9110) |
| `TimeoutLayer.ResponseMeans` | gateway/middleware.go:88-128 | a handler's response is all it wrote, in order, with its last status and the headers it left |
| `TimeoutLayer.DeadlineAnswers` | gateway/middleware.go:213-225 | from every reachable state in which the outermost layer waits, its deadline leads to the 504 |
| `TimeoutLayer.HandlerIsHeard` | gateway/middleware.go:151-212 | from every reachable state without a choice made, a handler that finishes in time leads to its complete response at every depth |
| `TimeoutLayer.NeverAMixture` | gateway/middleware.go:139-228 | at every moment the client has a beginning of the 504, if a deadline won anywhere, and otherwise of the complete response of a finished handler |
| `TimeoutLayer.LateWritesInvisible` | gateway/middleware.go:213-225 | after the outermost layer has returned nothing reaches the client |
| `TimeoutLayer.FlushCopies` | gateway/middleware.go:138-149 | flushing into a fresh buffer reproduces headers, status and body; the 504 arrives whole |
| `TimeoutLayer.BufferedWriter.constructor` | gateway/middleware.go:71-77 | an empty buffer with status 200 |
| `TimeoutLayer.BufferedWriter.WriteData` | gateway/middleware.go:88-106 | appends, or ignores the write once closed |
| `TimeoutLayer.BufferedWriter.SetStatus` | gateway/middleware.go:109-116 | records the status unless closed |
| `TimeoutLayer.BufferedWriter.MarkWritten` | gateway/middleware.go:121-128 | marks the buffer written and defaults the status |
| `TimeoutLayer.BufferedWriter.Close` | gateway/middleware.go:218-221 | sets 504 and closes |
| `TimeoutLayer.BufferedWriter.FlushTo` | gateway/middleware.go:139-149 | the header loop, status and body have the effect of the three writes of the step system |
| `Json.StringRoundTrip` | sdk/typescript/src/receipts.ts:68-87 | decoding undoes both encoders on every string (section 7 of RFC 8259), except that bytes of a Go string that are not valid UTF-8 read as U+FFFD |
| `Json.RecordRoundTrip` | sdk/typescript/src/receipts.ts:51-66 | parsing a fixed-order record undoes printing it, up to those bytes |
| `Json.RenderInjective` | sdk/typescript/src/receipts.ts:68-87 | the text of a fixed-order record determines what its values read as, across the two encoders |
| `Json.EncodersAgreeIff` | gateway/receipt.go:116-118 | re-encoding in JavaScript what was read reproduces Go's text exactly when nothing in it was altered |
| `Json.AlteredZeroIff` | gateway/receipt.go:116-118 | nothing is altered exactly in valid UTF-8 without a character escaped for HTML |
| `Receipts.SerializeInjective` | sdk/typescript/src/receipts.ts:68-87 | the signed text determines every field of the receipt as it reads |
| `Receipts.SignedTextDetermines` | sdk/typescript/src/receipts.ts:68-87 | if the SDK's text equals one the gateway signed, the receipts are equal and nothing was altered |
| `Receipts.SerializationsAgreeIff` | gateway/receipt.go:105-124 | from the receipt it read, the SDK rebuilds the signed bytes exactly when it is plain and valid UTF-8 |
| `Receipts.SignedLayout` | sdk/typescript/src/receipts.ts:68-87 | every member name of the signed text, in order, and its nesting |
| `Receipts.VerifiedIsAuthentic` | sdk/typescript/src/receipts.ts:98-128 | a receipt that verifies under the trusted key, with a signature that is not forged, names that key and equals, field for field, one the gateway signed |
| `Receipts.GenuineVerifiesIff` | sdk/typescript/src/receipts.ts:98-128 | a genuine receipt of the right shape, as read, verifies exactly when it is plain and valid UTF-8 |
| `Receipts.InvalidByteNonceFails` | gateway/receipt.go:105-124 | with a nonce of the byte 0xFF a genuine receipt does not verify, although nothing is escaped for HTML |
| `Receipts.EscapedNonceFails` | gateway/receipt.go:105-124 | nor does one whose nonce has any of the five characters escaped for HTML |
| `Receipts.HeaderRoundTrip` | sdk/typescript/src/receipts.ts:51-66 | the client reads from the header the signed receipt the gateway wrote, up to bytes that are not valid UTF-8 |
| `Receipts.WrittenIsFound` | sdk/typescript/src/receipts.ts:51-66 | the client finds that receipt in the header exactly when its shape is right as read |
| `Receipts.JudgeDecides` | sdk/typescript/src/client.ts:153-224 | any receipt, whoever signed it, is a mismatch exactly when its endpoint, request hash or response hash is not that of the exchange, and verified only under the trusted key |
| `Receipts.ReadSuccessDecides` | sdk/typescript/src/client.ts:165-187 | the decisions before that: no JSON, no header, an unreadable header |
| `Receipts.EndpointMatchesIff` | sdk/typescript/src/client.ts:91-116 | for a path that needs no rewriting, the endpoint the client expects is the path that is served exactly when gatewayUrl has no path |
| `Receipts.BeforeQueryMeans` | sdk/typescript/src/client.ts:112-116 | the endpoint is cut at the first question mark or number sign |
| `Receipts.RouteExpectedIff` | sdk/typescript/src/client.ts:112-116 | the client expects the route exactly when asked for it, with or without the leading slash |
| `Receipts.RewrittenNeverMatches` | sdk/typescript/src/client.ts:112-116 | a path that is rewritten on its way to the route is never the endpoint the client expects |
| `Receipts.JoinedPathMismatches` | gateway/routes.go:47-53 | gatewayUrl with path /api and a request for /ai/summarize reach the route and fail the endpoint check |
| `Receipts.GeneratedHasShape` | gateway/main.go:854-915 | every generated receipt passes the gateway's shape check, and the SDK's once read from the header |
| `Receipts.ShapesAgreeIff` | sdk/typescript/src/receipts.ts:22-49 | the gateway's and the SDK's shape checks compared: what each asks beyond the other, and that they agree in all else |
| `Receipts.IssuedIsAccepted` | sdk/typescript/src/client.ts:165-224 | the client's decision on an issued receipt read from its header text, presented with any exchange: mismatch, untrusted, verified or not verified, each with its exact condition |
| `Receipts.Hex` | gateway/receipt.go:87-94 | two lower-case hex digits per byte |
| `Receipts.IdsDistinct` | gateway/receipt.go:87-94 | receipt ids are equal exactly when their random bytes are |
| `ReceiptStore.StoreRefinesTimedMap` | gateway/receipt_store.go:35-104 | in every interleaving a lookup returns the last stored receipt exactly while it has not expired |
| `ReceiptStore.LiveEntriesStay` | gateway/receipt_store.go:69-104 | no lookup or cleanup removes a live entry |
| `ReceiptStore.LookUpAnswers` | gateway/receipt_store.go:57-79 | a lookup answers as the timed map did when it read its entry, whatever happens before it decides |
| `ReceiptStore.RetrievableUntilExpiry` | gateway/receipt_store.go:35-79 | any lookup that decides by the expiry of a stored receipt answers with it, and any later one with nothing |
| `ReceiptStore.InMemoryReceiptStore.constructor` | gateway/receipt_store.go:28-33 | an empty store |
| `ReceiptStore.InMemoryReceiptStore.Store` | gateway/receipt_store.go:35-55 | stores a clone, or reports exactly the documented errors and changes nothing |
| `ReceiptStore.InMemoryReceiptStore.Get` | gateway/receipt_store.go:57-79 | returns a fresh clone of a live entry; no live entry changes |
| `ReceiptStore.InMemoryReceiptStore.CleanupExpired` | gateway/receipt_store.go:81-104 | the loop removes exactly the expired entries |
| `ReceiptStore.MutateReceipt` | gateway/receipt_store.go:110-116 | overwriting a receipt that was passed in or returned changes no later lookup |
| `BrowserFlow.VisibleIsCurrentRunAlone` | web/src/hooks/use-x402.ts:55-335 | the visible state is that of the current run playing alone on a fresh page |
| `BrowserFlow.SupersededRunsInvisible` | web/src/hooks/use-x402.ts:74-77 | deleting all events of superseded runs leaves the visible state unchanged |
| `BrowserFlow.StepNeverMovesBack` | web/src/hooks/use-x402.ts:232-292 | within a run the step never moves backwards, timer included, and an ended run's view is final |
| `BrowserFlow.NextViewOk` | web/src/hooks/use-x402.ts:101-333 | the shown step fits the await the current run is at, and `isRunning` holds exactly while it has not ended |
| `BrowserFlow.RunIsEarned` | web/src/hooks/use-x402.ts:101-333 | a run signs only on the chain of its challenge, retries only once signed, and shows a summary exactly when it read one from a 200 or from a 2xx to its signed retry, else the error it ran into |
| `BrowserFlow.ShownIsEarned` | web/src/hooks/use-x402.ts:60-333 | the same of what the page shows, for every interleaving of runs |
| `BrowserFlow.SmoothRunCompletes` | web/src/hooks/use-x402.ts:101-302 | a run for which every await settles well ends with the summary and its receipt |
| `BrowserFlow.X402Flow.constructor` | web/src/hooks/use-x402.ts:51-53 | the initial state |
| `BrowserFlow.X402Flow.ResetFlow` | web/src/hooks/use-x402.ts:55-58 | a new id and the initial view |
| `BrowserFlow.X402Flow.SubmitText` | web/src/hooks/use-x402.ts:60-101 | a new current run, or nothing for blank text |
| `BrowserFlow.X402Flow.ApplyUpdate` | web/src/hooks/use-x402.ts:74-77 | a run that is not current changes nothing |
| `BrowserFlow.X402Flow.Continue` | web/src/hooks/use-x402.ts:107-334 | resuming an await or firing the timer is one step of the flow |
| `ReceiptHistory.HistoryIsPrefix` | web/src/lib/receipt-storage.ts:127-172 | after any saves, removals and clears, some failing, the list is a beginning of the reference list, of 20 entries at most |
| `ReceiptHistory.ListedIff` | web/src/lib/receipt-storage.ts:127-172 | listed are exactly the entries never beyond the twentieth place of the reference since their last save |
| `ReceiptHistory.HistoryIsLatestDistinct` | web/src/lib/receipt-storage.ts:135-172 | after any saves and clears, some failing, the list is the first 20 of the reference |
| `ReceiptHistory.LiveMeans` | web/src/lib/receipt-storage.ts:135-172 | the reference list holds exactly the entries whose save is the last operation on their id |
| `ReceiptHistory.LiveDistinct` | web/src/lib/receipt-storage.ts:137-144 | no id occurs twice in it |
| `ReceiptHistory.LiveOrdered` | web/src/lib/receipt-storage.ts:137-144 | it is ordered by those saves, the latest first |
| `ReceiptHistory.CapCommutes` | web/src/lib/receipt-storage.ts:144-144 | trimming at every save loses nothing compared with trimming once |
| `ReceiptHistory.ParseEncode` | web/src/lib/receipt-storage.ts:77-89 | what is written is what is listed |
| `ReceiptHistory.FilterOut` | web/src/lib/receipt-storage.ts:138-138 | the filter keeps every other id in order |
| `ReceiptHistory.ReceiptStorage.constructor` | web/src/lib/receipt-storage.ts:93-94 | an empty cache that is right about absent storage |
| `ReceiptHistory.ReceiptStorage.ListReceipts` | web/src/lib/receipt-storage.ts:77-129 | the valid entries of whatever is stored, in order, nothing for absent, unreadable or malformed text, and a written list as it was written |
| `ReceiptHistory.ReceiptStorage.GetReceiptsSnapshot` | web/src/lib/receipt-storage.ts:96-107 | the snapshot equals the list for any contents, and is the same array while the text is the same |
| `ReceiptHistory.ReceiptStorage.SaveReceipt` | web/src/lib/receipt-storage.ts:135-151 | afterwards the list is the saved entry in front of the others, capped; a failing write changes nothing |
| `ReceiptHistory.ReceiptStorage.RemoveReceipt` | web/src/lib/receipt-storage.ts:153-162 | removes exactly one id |
| `ReceiptHistory.ReceiptStorage.ClearReceipts` | web/src/lib/receipt-storage.ts:164-172 | empties the list |

## Left out

- Elliptic-curve recovery, keccak, SHA-256 and the EIP-712 encoding: parameters of the model.
- Floating-point rounding in the limiter, and the gap between reading and deleting a bucket in its sweep: arithmetic is exact and each per-key operation is one step.
- RateLimit.TokenBucket.Allow: the number of tokens asked for is a natural number; the only caller asks for 1.
- RateLimit.TokenBucket.constructor: a positive cleanup interval is required, because a ticker with any other interval panics.
- A delay between the timestamp check and the nonce claim of one verify request, and drift between replica clocks.
- ReplayGuard.RetentionIsTight: needs one payment on the verifier's chain for which a recoverable signature exists at every 64-bit timestamp; without one no request of it is ever accepted.  The same holds for ReplayGuard.AcceptedTwice and ReplayGuard.SourceRetentionSafeIff.
- A wall clock before 1970: the verifier panics there, the model reads 0, and the runs of the theorems exclude it.
- TimeoutLayer.BufferedWriter.FlushTo: every header present has at least one value, as `Add` and `Set` ensure.
- The panic branch of the timeout layer, and `Flush`, `Hijack`, `CloseNotify`, gzip and gin's handler chain.
- How deadlines of nested layers are chosen: the model lets any deadline pass at any time.
- The expiry of cached responses is an event that may happen at any time; a request body that cannot be read for another reason than its size (500), and the texts of error responses.
- The base64 layer of the receipt header, and header texts in any layout other than the gateway's, on which `decodeReceiptHeader` is not modelled.
- A random id drawn twice: the later receipt replaces the earlier one, so GatewayReceipts.ReceiptIsRetrievable is about the last one.
- A `getItem` that throws while a later `setItem` succeeds is covered for one call, not in the runs of the receipt history.
- How a URL parser, a proxy or the server rewrites a path, and the router's redirect of a trailing slash: the model says only that a rewritten path is not the one the client expects.
- Query strings inside gatewayUrl, and a chain id above 2^53 - 1, which the SDK rejects.
- `json.Marshal` and gin's `c.JSON` are taken to produce the same bytes for the response body.
- The Redis receipt store, the AI providers, configuration parsing, metrics, logging, correlation ids and the OpenAPI routes.
- `isValidEntry` field by field, the listener set of the receipt history, wallet calls and analytics events.
- `saveReceipt` is called by superseded runs too; the browser model covers the visible state, not that call.
