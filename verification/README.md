# Verification of the age-verification worker's gates and codecs

A Dafny 4.11 model of the parts of the verifier worker in which several requests, several KV calls or
two text encodings have to agree, with proofs of what they keep:

- the KV rate limiter: read-check-write counters without compare-and-swap, fixed windows written into
  string keys, TTLs, injected read and write failures, the tier cache in front of a two-hop lookup, the
  chain of gates of a challenge request, and the hosted flow's in-memory counter;
- the error envelope: direct rendering of an API error against the rendering rebuilt from the text it is
  squeezed into when it crosses `?`;
- the application-state cache: two global cells around an await;
- session cookies (sections 4.1.1 and 4.2.1 of RFC 6265), origin patterns and CORS headers.

`dafny verify dfyconfig.toml` checks everything. Code that updates state in the source is a class or a
method here, proved against a specification function; the results about whole runs are lemmas about those
functions. Results about interleavings are about event lists: between any two steps of a request any
other request may take its own, and a step is what the source does between two awaits.

## Modules

| module | what it holds |
|---|---|
| Text, Decimal | the string operations of the Rust standard library; printing and parsing of unsigned integers of a given width |
| RateLimitKv | the KV with expiry times, injected failures and a log of puts |
| KvCounter, Quota | one check, its keys and windows, the reply to a rejection, the two quota checks |
| CounterKeys | keys of different buckets never collide |
| CounterRace, CounterRaceExtremes | any interleaving of reads and writes; what overlap costs, and that it costs no less |
| CounterRaceWindows | fixed and sliding windows under interleaving |
| CounterSequential, CounterWindows | runs without overlap: failure accounting, sliding windows, window budgets, the retry loop |
| TierCache, TierCacheRuns | the cache, and its runs with interleaved lookups |
| GateChain | three gates in a row and the ledger they keep |
| HostedCounter, HostedRace | the in-memory counter of the hosted flow, one check after the other and with its two sections interleaved |
| ErrorEnvelope, AppStateCache, Cookie, Origins | as above |

## Where the code and its comments differ

The model follows the code. Each item is a lemma.

- The comment at `src/rate_limiting.rs:173-187` bounds the cost of concurrency by N-1 extra requests. The
  exact cost is governed by the overlap `k`, the number of other writes that land between a request's read
  and its write: at most `(k+1)` times the room left is admitted (`CounterRace.OverlapBound`), and that is
  reached for every `k` (`CounterRaceExtremes.BoundIsReached`). Bounding the requests *in flight* is not
  enough: with two in flight a late writer sets the counter back and the whole limit is admitted twice
  (`CounterRaceExtremes.LateWriterDoublesTheLimit`). What concurrency loses is, to the unit, what writes
  take back (`CounterRace.WriteLedger`).
- The two renderings of an API error agree exactly for the payloads of `ErrorEnvelope.Portable`: not for
  `Some("")` (an empty detail on one path, none on the other) and not when a status override moves a
  `Forbidden` out of 401/403 or another error into 403 (Clear-Site-Data is sent on one path only). Every
  error built by a constructor is portable.
- A structured detail survives encoding exactly when its code has no `|`; field and detail have theirs
  replaced, the code has not.
- After its await, a caller of `get_or_init_app_state` can be handed the state of another configuration
  (`AppStateCache.ForeignState`); and the cache key joins its parts with a colon that the parts contain
  (`AppStateCache.KeysCollide`).
- In an origin pattern every `*.` is replaced, so a second one becomes the literal label `wildcard`
  (`Origins.SecondStarIsLiteral`).
- In a sandbox the preflight and the response can grant different things (`Origins.CorsInGeneral`).
- The hosted counter denies as soon as the count, the present request included, reaches the limit, so it
  admits at most one less than the limit while it counts exactly (`HostedCounter.CountsAllUnlessDropped`).
  It does so exactly while no unwritten hit is dropped. Hits are dropped when a memo is found stale, where
  the doc comment at `src/hosted/rate_limiting.rs:291-300` says they are synced back, and when a memo is
  evicted to make room; a check loses nothing exactly under the condition of
  `HostedCounter.CheckCountsExactly`, for its own key a memo whose count equals its KV count. Of a steady
  trickle the KV may so count one request in ten (`HostedCounter.TenCountedAsOne`), and overlapping misses
  multiply that (`HostedRace.CrowdCountsOnce`).
- The advertised Retry-After is 1 to 60 seconds except at the last second a 64-bit clock can show, where it
  is 0 (`KvCounter.RejectionMeaning`).

## Model

| member | source | states |
|---|---|---|
| RateLimitKv.KvStore.GetText | src/rate_limit_kv.rs:204-217 | a read returns the injected error, used up unless persistent, or the unexpired value; it changes nothing else |
| RateLimitKv.KvStore.PutWithTtl | src/rate_limit_kv.rs:219-243 | a successful put stores the value with its expiry and is logged; a failed one changes neither store nor log |
| RateLimitKv.GetAfterPut | src/rate_limit_kv.rs:60-85 | a value put is there for exactly its time-to-live, and other keys are as before |
| Decimal.ParseOfPrint | src/rate_limiting.rs:194-222 | the count written as text is read back as the same number exactly when it fits the integer it is parsed into |
| Decimal.ParseMeans | src/rate_limiting.rs:194-196 | the texts read as a number are exactly its digits with any zeros and at most one `+` in front, up to the width |
| KvCounter.CheckKvCounter | src/rate_limiting.rs:188-233 | new store, verdict and put log of one check as a function of the old store and the two possible faults; a write happens exactly for an admitted request whose put works |
| KvCounter.RejectionMeaning | src/rate_limiting.rs:188-502 | the whole result of a check: admitted exactly below the limit with a working read; the count with the request in it, the count found, or nothing after a failed read; KV untouched by a rejection; 503 and five seconds exactly for failed reads, 429 and the window's wait for genuine over-limit; waits of 1 to 60 s but for the clock's last second |
| KvCounter.CountsAndStartsOver | src/rate_limiting.rs:188-233 | an admitted and written request is counted until its TTL ends and not afterwards, so a later working check with a positive limit is admitted and counts one |
| KvCounter.CountMeans | src/rate_limiting.rs:194-196 | a stored text counts for the number it denotes while it is unexpired, and for nothing if it denotes none or has expired |
| KvCounter.CheckPerIpLimit | src/rate_limiting.rs:635-660 | one check on the hour's key under the caller's prefix, two hours of TTL |
| KvCounter.CheckCatchallLimit | src/rate_limiting.rs:664-690 | one check on the minute's key, 120 s of TTL |
| KvCounter.CheckHostedIpLimit | src/rate_limiting.rs:694-720 | one check on the endpoint's and address's hourly key |
| KvCounter.CheckExpertIpLimit | src/rate_limiting.rs:724-750 | one check on the endpoint's and address's hourly key, in its own namespace |
| KvCounter.CountQuota | src/rate_limiting.rs:561-577 | one check on the client's and endpoint's hourly key |
| KvCounter.CountAccountQuota | src/rate_limiting.rs:611-627 | the same in the account namespace |
| Quota.CheckQuota | src/rate_limiting.rs:548-577 | for all faults of both stores, also when they are one: the counter is held to the limit the tier lookup gives with its failed or successful read, and meets the faults the lookup left |
| Quota.CheckAccountQuota | src/rate_limiting.rs:587-627 | the same on the verified client |
| Quota.CustomerLimitMeans | src/rate_limiting.rs:558-563 | the limit both quota checks use, in terms of the cache and the stored texts |
| Quota.CountersApartFromTiers | src/worker_routes.rs:1651-1662 | no counter of any namespace has the key of a tier or of its limits |
| Quota.ChecksKeepLimits | src/rate_limiting.rs:82-120 | though counters and tiers share a store, no check on any counter changes the limit any lookup returns |
| CounterKeys.KeysDoNotCollide | src/rate_limiting.rs:561-734 | two buckets of any namespaces have the same key exactly when they are the same bucket, given colon-free endpoint labels, client ids with any colons |
| CounterKeys.ChecksDoNotInterfere | src/rate_limiting.rs:561-734 | a check on one bucket leaves the count of every other bucket unchanged at every time |
| CounterKeys.ColonInLabelCollides | src/rate_limiting.rs:561 | with a colon in the label two quotas share one entry |
| CounterRace.StepElsewhere | src/rate_limiting.rs:188-233 | an event on another key leaves store entry, tallies and waiting requests of this key as they were |
| CounterRace.RunKeeps | src/rate_limiting.rs:188-233 | invariant of every interleaving with overlap k: each prefix of the writes has raised the count by at least its length over k+1, no write passes the limit, all pending requests read a value that was current, and every request is accounted for |
| CounterRace.OverlapBound | src/rate_limiting.rs:173-233 | in every interleaving with overlap k and limits up to L, m writes raise the count by m/(k+1) to m, the count never passes the larger of L and start, and at most (k+1) times the room plus the lost writes is admitted |
| CounterRace.CompleteRun | src/rate_limiting.rs:173-233 | a finished run of requests with limits from lo to L admits at least min(n, room under lo), at most min(n, (k+1) room under L + lost writes), exactly min(n, room) with one limit and without overlap and loss |
| CounterRace.WriteCountsExactly | src/rate_limiting.rs:188-233 | a write raises the count by one exactly when it was computed from the count it replaces |
| CounterRace.WriteLedger | src/rate_limiting.rs:173-233 | in every interleaving whatsoever the count rises by the landed writes less the counts they take back, so by all of them exactly when what is taken back adds up to nothing |
| CounterRaceExtremes.BoundIsReached | src/rate_limiting.rs:173-187 | for every overlap, limit and start some run admits exactly (k+1) times the room |
| CounterRaceExtremes.LateWriterDoublesTheLimit | src/rate_limiting.rs:173-187 | with at most two requests ever in flight, twice the limit is admitted, for every limit |
| CounterSequential.SequentialIsRace | src/rate_limiting.rs:188-233 | checks served one after the other are a run of the race with overlap 0, ending in the same store, whose tallies are the verdicts of the checks and their failed reads and writes |
| CounterSequential.FailureAccounting | src/rate_limiting.rs:188-233 | in a sequential run with failures, by the verdicts of its checks: the count rises by exactly the admitted requests whose write landed; of the n requests whose read worked at least min(n, room under the lowest limit) and at most the room under the highest plus the failed writes are admitted |
| CounterWindows.SpanBound | src/rate_limiting.rs:188-233 | while entries outlive a span, no more than the limit lands on the key in it, whatever else is served and whatever fails |
| CounterWindows.SlidingWindow | src/worker_routes.rs:1473-1528 | a counter kept alive by its TTL is a true sliding window: no span of one TTL contains more than the limit of counted requests |
| CounterWindows.QuietCounterAdmits | src/worker_routes.rs:1473-1528 | the lower half: in every run a request with a working read is admitted when nothing landed on its key in the last TTL seconds |
| CounterWindows.CspReportGate | src/worker_routes.rs:1473-1528 | the CSP counter (10 in 60 s) as one request on such a counter; 503 exactly for a failed read, 429 exactly at ten, a lost write accepts |
| CounterWindows.OriginRegistrationGate | src/worker_routes.rs:2655-2705 | the registration counter (10 in 3600 s); here a lost write is refused with 503, so exactly the counted requests pass |
| CounterWindows.WindowBudget | src/rate_limiting.rs:548-577 | in any interval a fixed-window family admits at most limit times windows touched, plus lost writes |
| CounterWindows.TwiceTheLimit | src/rate_limiting.rs:664-690 | at most twice the limit in any span of one window length, plus lost writes |
| CounterWindows.NextWindowStartsOver | src/rate_limiting.rs:555-563 | whatever earlier windows counted, the first request of a window with a working read is admitted |
| CounterRaceWindows.WindowRaceBudget | src/rate_limiting.rs:188-690 | under concurrency: in every interleaving with overlap k and a clock that does not go back, whatever the store held before, the requests of the windows an interval touches write at most (k+1) times the limit per window, late writes included and counters read up to a window late |
| CounterRaceWindows.SlidingWindowRace | src/worker_routes.rs:1473-1528 | under concurrency: in every interleaving with overlap k no span of one TTL, wherever it starts, has more than (k+1) times the limit of writes landing in it |
| CounterWindows.TouchedClosedForm | src/rate_limiting.rs:555 | the number of windows an interval touches, in closed form |
| CounterWindows.ChecksUseFamilies | src/rate_limiting.rs:548-750 | the literal key of every fixed-window check, with its 3600 or 60 second window, is that of such a family, so the budgets apply to it |
| CounterWindows.RetryReachesNextWindow | src/rate_limiting.rs:271-280 | a client that waits the advertised time after each rejection reaches the first second of the next window after exactly one wait per minute started, at most 60 for an hour, and never overshoots it |
| TierCache.Cache.Lookup | src/rate_limiting.rs:91-104 | an answer exactly for entries fetched less than 60 s ago: the entry's limit for the endpoint, else the default |
| TierCache.Cache.FindOldest | src/rate_limiting.rs:134-141 | the entry picked is present and none is older |
| TierCache.Cache.Insert | src/rate_limiting.rs:132-149 | a full cache first drops an oldest entry, then the new entry is there; the size never passes 1000 |
| TierCache.GetCustomerLimit | src/rate_limiting.rs:82-153 | for every fault, in terms of the stored texts: a fresh entry answers with its limit for the endpoint; else the text of the client's tier does, the default standing in for a missing or failed text and a missing endpoint; the limits are cached exactly when the first read gave a tier; the store is only read |
| TierCache.PlainLimitMeans | src/rate_limiting.rs:107-120 | the uncached limit is `parse` of the text under `rate_limits/tiers/` for the tier under `rate_limits/clients/`, at the endpoint, and the default where anything of it is missing |
| TierCacheRuns.CacheRefinesLookup | src/rate_limiting.rs:82-153 | in every run in which lookups interleave at both reads and before their insertion, with configuration changes and failures, older fetches overwriting newer ones included, each limit returned is what the texts stored at two instants before the answer say, the first less than 60 s before the caller asked, or later, failing only where a read failed; at most 1000 entries ever |
| TierCacheRuns.EveryLookupAnswered | src/rate_limiting.rs:82-153 | every lookup that began has been answered once or is under way |
| GateChain.ClientIdsApart | src/worker_routes.rs:457-497 | two client ids are equal exactly when the addresses are equal and the Origins are, or both have none and the API key digests are equal or both absent |
| GateChain.QuotasApart | src/worker_routes.rs:457-497 | a visit, with any faults and outcome, leaves the quota entry of every other Origin, API key and address as it was |
| GateChain.ServeVisit | src/worker_routes.rs:1617-1681 | the three gates, each with its own clock reading and early return, do to the store what the specification says, reply exactly to what does not get through, 503 first when reads fail and 429 otherwise |
| GateChain.KvIsLedger | src/worker_bindings.rs:1362-1396 | after every failure-free sequential run each hourly key's entry says exactly how many visits were counted in its bucket, and there is none for zero |
| GateChain.CountsCapped | src/worker_bindings.rs:1362-1396 | no per-IP bucket ever counts more than its cap |
| GateChain.Conservation | src/worker_routes.rs:1617-1681 | per address, endpoint and hour the stored per-IP count is the sum of the stored quota counts of its clients plus the refusals at the quota gate, but for the visits that cross into or out of the hour between the two gates, and is that sum exactly when as many cross in as out; the count is at most the per-IP limit, and at most 1000 visits of an hour get through over all endpoints |
| GateChain.StraddlingVisit | src/worker_routes.rs:1617-1681 | a single visit whose per-IP and quota gates read different hours is in the per-IP count of its hour and in no quota count of it |
| HostedCounter.CounterCache.Check | src/hosted/rate_limiting.rs:301-442 | a check during whose KV read nothing else happens: new memos, store and verdict, for some eviction the code allows; never more than 5000 memos |
| HostedCounter.CounterCache.Hit | src/hosted/rate_limiting.rs:301-351 | the section before the KV read: a usable memo answers and is written back on its tenth hit; without one nothing changes |
| HostedCounter.CounterCache.Refresh | src/hosted/rate_limiting.rs:379-441 | the section after it: whatever other requests made of the memos meanwhile, the memo and the KV become the count read plus one |
| HostedCounter.ChooseEvicted | src/hosted/rate_limiting.rs:382-405 | below capacity nothing is evicted; else the expired memos, and if that is not enough half of the rest, none synced later than one kept |
| HostedCounter.EvictionMeans | src/hosted/rate_limiting.rs:382-405 | nothing goes below 5000 memos; a full cache loses all memos past their lifetime, only those if fewer than 5000 are left, and never one synced later than one it keeps |
| HostedCounter.EvictionMakesRoom | src/hosted/rate_limiting.rs:382-414 | a cache of at most 5000 memos has room after eviction, so it never passes 5000 |
| HostedCounter.MemoLifetime | src/hosted/rate_limiting.rs:309-338 | a memo answers for ten seconds from its last write to the KV, which only a miss and the tenth hit are; hits do not prolong it |
| HostedCounter.FaultsMean | src/hosted/rate_limiting.rs:341-441 | a failed read refuses exactly the checks that need it and changes nothing; a failed write changes neither verdict nor memos |
| HostedCounter.HostedBounds | src/hosted/rate_limiting.rs:309-442 | for requests checked one after the other: of n the KV counts at most all and at least a tenth, and with m places before the last one of the limit at least min(n, m) and at most 10 m are admitted |
| HostedCounter.CheckCountsExactly | src/hosted/rate_limiting.rs:309-441 | per check, exactly when nothing is lost: unless it finds its own memo stale with unwritten hits, or evicts such a memo of another key |
| HostedCounter.VerdictByLedger | src/hosted/rate_limiting.rs:309-442 | every verdict of a run: the count reported is that of the requests on the key so far less the hits dropped by then, and the request is allowed exactly below the limit |
| HostedCounter.CountsAllUnlessDropped | src/hosted/rate_limiting.rs:291-442 | KV and memo together count every request less the hits dropped, so all of them exactly when none was dropped; and then exactly min(n, limit - 1 - start) are admitted |
| HostedCounter.TenCountedAsOne | src/hosted/rate_limiting.rs:291-300 | volleys of up to ten requests, ten seconds apart, are counted as one each, so the lower bound is reached |
| HostedRace.CheckIsAskThenFinish | src/hosted/rate_limiting.rs:301-442 | the two sections with nothing between them and an up-to-date read are one check |
| HostedRace.HostedOverlapBound | src/hosted/rate_limiting.rs:301-442 | in every interleaving with overlap k, memos tested before and reads made later and returning any count sent before, of n answered requests the count sent to the KV last has at most all and at least one in 10 (k+1), nine aside; with limits from lo to hi, at least min(n, room under lo) and at most 10 (k+1) times the room under hi are admitted |
| HostedRace.CrowdCountsOnce | src/hosted/rate_limiting.rs:352-441 | the price is real for every overlap: n checks that read the same count, each followed by up to nine hits, are all admitted and counted as one |
| ErrorEnvelope.DetailRoundTrip | src/error.rs:181-219 | decoding an encoded detail gives its canonical form exactly when the code has no bar; canonical details come back unchanged |
| ErrorEnvelope.EncodingIsStable | src/error.rs:181-219 | encoding, decoding and encoding again gives the same text exactly when the code has no bar |
| ErrorEnvelope.DecodeMeans | src/error.rs:191-219 | a text is structured exactly when it is the sentinel, alone or before a bar, and fields it leaves out are absent |
| ErrorEnvelope.StatusMeans | src/error.rs:296-316 | a payload overrides the status exactly when it is `__STATUS:`, a number that fits, `__` and the rest; otherwise all of it is the rest |
| ErrorEnvelope.ToResponse | src/error.rs:323-436 | the step-by-step rendering equals the specification of the direct response |
| ErrorEnvelope.BuildErrorResponse | src/error.rs:544-614 | the headers set one by one are the common ones, and Clear-Site-Data exactly for 401 and 403 |
| ErrorEnvelope.ResponseFromWorkerError | src/error.rs:502-528 | the response rebuilt from any text equals the specification of the propagated response |
| ErrorEnvelope.EnvelopeRoundTrip | src/error.rs:488-643 | parsing the text an error was turned into gives back its base and its payload, exclamation marks in the payload included; only an empty payload is lost |
| ErrorEnvelope.DisplayNamesKind | src/error.rs:461-482 | the display text of every error is mapped back to that error's status, code and message |
| ErrorEnvelope.PropagationPreservesMeaning | src/error.rs:296-643 | both paths give the same status, message, code, field, detail and headers exactly for portable payloads, for all other text |
| ErrorEnvelope.PortableOverrides | src/error.rs:298-316 | which status overrides are portable: for a Forbidden exactly 401 and 403, for every other error exactly those that are not 403 |
| ErrorEnvelope.OverrideNotPortable | src/error.rs:298-316 | a Forbidden reported as 400 is rendered differently on the two paths |
| ErrorEnvelope.ConstructorsArePortable | src/error.rs:226-288 | every error built by any of the seven constructors is portable, for every code, field and detail |
| ErrorEnvelope.UnauthorizedSays | src/error.rs:259-267 | `unauthorized` reaches the client on both paths as 401 with its code and detail and Clear-Site-Data |
| ErrorEnvelope.ConstructorsSay | src/error.rs:226-288 | each constructor's error gives the client its status, message, code, field and detail, on both paths |
| ErrorEnvelope.StructuredSays | src/error.rs:296-436 | any structured payload with a bar-free code reaches the client as its code, field and detail, on both paths |
| ErrorEnvelope.PlainTextSays | src/error.rs:71-77 | a plain text payload reaches the client as the detail only, with the kind's status, code and message, on both paths unless it is empty |
| ErrorEnvelope.NoPayloadSays | src/error.rs:296-436 | an error without payload says its kind and nothing more, on both paths |
| ErrorEnvelope.ForeignTextSays | src/error.rs:461-528 | a text that no error is squeezed into is answered 500, and nothing of it reaches the client |
| AppStateCache.StateCache.BeforeInit | src/worker_bindings.rs:168-200 | the section before the await drops a state of another key and returns what is then cached |
| AppStateCache.StateCache.AfterInit | src/worker_bindings.rs:207-224 | the section after it publishes the new state and its key only into an empty cache, and returns what is cached |
| AppStateCache.Agreement | src/worker_bindings.rs:151-225 | in every run the stored key is the one the cached state was built with, callers served before the await get their own key's state, every state handed out was published, and publications exceed drops by at most one |
| AppStateCache.OneKeyOneState | src/worker_bindings.rs:151-225 | while all requests share one key, at most one state is published and every successful caller gets it |
| AppStateCache.RequestMeans | src/worker_bindings.rs:168-200 | a request is served at once exactly when the cached state was built for its key; otherwise it waits and a state of another key is gone |
| AppStateCache.FinishMeans | src/worker_bindings.rs:202-224 | a failed initialisation changes nothing; a successful one publishes into an empty cache, and the caller gets what is then cached |
| AppStateCache.EveryRequestAccounted | src/worker_bindings.rs:151-225 | every request that came in was given one state, failed, or is still waiting |
| AppStateCache.LateGrant | src/worker_bindings.rs:207-224 | after the await a caller gets a state of its own key exactly when the cache is empty or holds one |
| AppStateCache.ForeignState | src/worker_bindings.rs:151-225 | for any two different keys a race ends with one caller holding the other's state |
| AppStateCache.KeyTellsApart | src/worker_bindings.rs:154-165 | any two configurations of equal key are equal exactly when their base URLs have equally many colons and so have their shard counts |
| AppStateCache.KeysCollide | src/worker_bindings.rs:154-165 | two different configurations with one key |
| Cookie.GenerateSessionCookie | src/hosted/cookie.rs:168-248 | the header built part by part is the join of the intended attributes |
| Cookie.SafeMeans | src/hosted/cookie.rs:146-150 | the safe characters are the visible ones of ASCII without quotes, commas, semicolons and backslashes |
| Cookie.SetCookieStructure | src/hosted/cookie.rs:168-248 | splitting the header gives back exactly the intended attributes, for every token, when what is printed of name, path and domain has no semicolon |
| Cookie.SetCookieSays | src/hosted/cookie.rs:168-248 | what is read back from the header: name and token, path, domain, age, flags and SameSite mode as configured, or as a `__Host-` cookie must have them |
| Cookie.HostCookie | src/hosted/cookie.rs:168-248 | a `__Host-` cookie has Path=/ and Secure, no other Path and no Domain, whatever path and domain were configured, semicolons included; only the name must have none |
| Cookie.ParseCookie | src/hosted/cookie.rs:267-279 | the loop returns the first piece's value under the name |
| Cookie.FirstNamedAt | src/hosted/cookie.rs:267-279 | the first piece with the name answers, whatever pieces come before it |
| Cookie.FirstNamedNone | src/hosted/cookie.rs:267-279 | nothing is found exactly when no piece has the name |
| Cookie.CookieRoundTrip | src/hosted/cookie.rs:267-279 | parsing a header printed as in RFC 6265 gives the first value sent under the name, and none exactly when the name is absent |
| Origins.ListRoundTrip | src/config.rs:51-68 | reading the comma-join of clean patterns returns them, with the wildcard flag set exactly when `*` is among them |
| Origins.ReadingIsStable | src/config.rs:51-68 | any accepted list is the one its own join gives |
| Origins.CleanedMeans | src/config.rs:55-60 | each piece of the list gives its text without the white space around it, and a blank one nothing |
| Origins.RefusedMeans | src/config.rs:61-63 | a list is refused exactly when there is only white space between its commas |
| Origins.SuffixIsLabels | src/config.rs:72-95 | ending in a dot and the suffix is the same as having the suffix's labels, and more, at the end |
| Origins.NoLookalikes | src/config.rs:72-95 | neither the bare domain nor a name that merely ends in its letters matches |
| Origins.WildcardMeansSubdomain | src/config.rs:120-144 | a pattern with `*.` after its scheme matches exactly the origins of its scheme and port with the labels, case folded, of the domain left once every other `*.` is replaced, and at least one more in front |
| Origins.SecondStarIsLiteral | src/config.rs:120-144 | with a second `*.` anywhere the matching hosts are exactly those that end in the text before it, the literal `wildcard.` and the text after it, below at least one label |
| Origins.TwoStarsMissTwoLabels | src/config.rs:120-144 | so two leading stars match no host two labels below the domain unless the lower label is `wildcard` |
| Origins.PatternMeans | src/config.rs:78-92 | what a pattern matches: `*` every origin, a wildcard host the proper subdomains on its scheme and port, any other exactly its scheme, host and port |
| Origins.MatchesMeans | src/config.rs:72-95 | an origin matches a list exactly when it parses and some pattern allows it |
| Origins.ExactListMeans | src/config.rs:87-91 | a list without wildcards matches exactly the origins of one of its schemes, hosts and ports |
| Origins.AddSecurityAndCorsHeaders | src/worker_routes.rs:210-291 | the headers set one by one are the baseline, the request id and the grant of an ordinary response |
| Origins.HandleOptions | src/worker_routes.rs:336-385 | the same for the preflight |
| Origins.ProductionCors | src/config.rs:178-219 | for every accepted production configuration preflight and response send the same headers, Allow-Credentials exactly with Allow-Origin, which exactly when some configured pattern allows the origin |
| Origins.ConfiguredGrant | src/config.rs:178-219 | with the configured list a comma-join of clean patterns, credentials are granted exactly to the origins one of these patterns allows, on preflight and response |
| Origins.LoadMeans | src/config.rs:178-219 | exactly which configurations are accepted, which error the others get, and what is kept |
| Text.FindMeans | src/config.rs:83 | `contains`, `split_once` and `split` cut at the first occurrence, and find nothing only if there is none |
| Text.TrimOfPadded | src/config.rs:57 | `trim` removes exactly the white space around a text |
| Text.CaseFolds | src/config.rs:137-139 | `to_ascii_lowercase` forgets the case of ASCII letters and nothing else |
| Origins.CorsInGeneral | src/worker_routes.rs:210-385 | for any configuration, exactly when preflight and response agree and when an origin is named without credentials |

## Left out

- KV propagation delay between locations: in HostedRace a read may return any count sent before; in CounterRace it is represented only by the overlap `k`, a stale read being an earlier one.
- `MockKv` ignores expiry; the store here expires entries as the production KV does, and its clock is the caller's.
- Logging, audit records, the KV failure counters, timings and lock poisoning.
- JSON, URL parsing, hashing, HMAC and UUIDs: `parse`, hashed addresses, key digests and request ids are parameters; nothing is assumed of them but what a lemma's `requires` says.
- The bodies of 429 and 503 replies and their X-RateLimit headers: only status and Retry-After are modelled.
- The hosted counter's clock is whole milliseconds, not floating-point ones, and not before 1970.
- Challenge life cycle, proof verification, Durable Objects, PKCE, secret loading and the other routes.
- HostedCounter.HostedBounds: for one isolate with a working KV, requests one after the other, and entries that do not expire during the run; the interleaved case is HostedRace.
- HostedCounter.CountsAllUnlessDropped: under the same conditions; with a failed write back the memo believes itself synced, and that is not counted as a drop.
- HostedRace.HostedOverlapBound: a count is in the model's store when it is sent, with the update of the memo; a put that lands later, out of order or not at all appears as reads that return an earlier count. For one isolate whose entry does not expire during the run; further isolates count separately.
- GateChain.Conservation: for sequential runs without KV failures, from an empty KV; with overlap the counts diverge as the race lemmas say. The three clock readings of a visit and the quotas are arbitrary, the per-IP limit is one number for the run; the KV calls of a gate see the time of its clock reading.
- GateChain.ServeVisit: the Sec-Fetch check between the first two gates, missing KV bindings, and the content checks after the last; none of them touches a counter.
- CounterRace.OverlapBound: for runs in which the key's entry is not found expired; CounterRaceWindows.WindowRaceBudget needs no such assumption.
- CounterRace.CompleteRun: under the same condition.
- CounterSequential.FailureAccounting: for a key whose entry does not expire within the run, as in one window; across windows the budget lemmas apply.
- CounterWindows.CspReportGate: content-type and size checks before the counter and the report's processing after it.
- CounterWindows.OriginRegistrationGate: authentication and validation around the counter.
