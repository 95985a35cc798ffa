# A verified model of the node-local DNS agent

The agent puts a small DNS proxy in front of a resolver process it manages. This project models the
request path of that proxy (`pkg/proxy`) and the loops around it: the process-log splitter, the
health checker, the config watcher, the config-reload callback and the engine supervisor.

Each stateful component appears twice. A value datatype with step functions is its specification
(`Take`, `Admit`, `Stored`, `Exchanged`, `Updated`, ...); a class with the Go struct's fields runs
the Go code's loops and branches, and its methods are proved to make exactly that step. The main
results are lemmas about runs of the steps, over every input, every run and, where the Go code runs
concurrently, every interleaving of its critical sections.

Conventions: a time or duration is an integer number of nanoseconds, a token count is a `real`. Go
map iteration picks any remaining key at each turn. What a socket, dial, probe, file or process call
returns is a parameter or a choice of the step that makes it.

| module | what it models |
|---|---|
| `TokenBuckets`, `RequestLimiters`, `LimiterRuns` | rate limiter: global bucket, per-source table with eviction and cap, overflow bucket |
| `LimiterRetention` | the exact settings under which forgetting a silent source can be seen |
| `LimiterInterleavings` | concurrent limiter calls: global take, lookup and bucket take as separate steps |
| `ResponseCaches`, `CacheRuns` | response cache: TTL expiry, ageing, serve-stale window (section 4 of RFC 8767), purge, evict-oldest |
| `ConnPools` | engine connection pool, as a class and as interleaved steps |
| `DomainFilters`, `Messages`, `Texts` | domain filter, cache keys, text operations |
| `Proxies`, `ProxyRuns`, `ProxyAlone` | the query handler, all interleavings of queries, and the agreement of the two |
| `ProxyLateness` | a run whose stale lookup reads ahead of the entry's storage |
| `LineWriters` | process-log line splitter with its windowed limit |
| `Upstreams`, `HealthCheckers` | upstream validation and labels, health hysteresis |
| `ConfigWatchers` | debounce loop |
| `UnboundEngines`, `ConfigReloads`, `ConfigAgents` | engine lifecycle, reload callback with rollback, supervisor |

## What the proofs turned up

- Forgetting a silent source can be seen if and only if the retention is positive and an empty bucket
  is not full again one nanosecond after it (`LimiterRetention.ForgettingShowsIffRetentionIsShort`). For
  such settings one source calling around one silence is admitted more often than if it were remembered.
- Storing under a key that a full cache already holds still evicts. Some order of the scan loses another
  key's entry if and only if another key has minimal expiry, and every order does if and only if the
  written key has not (`CacheRuns.OverwriteLosesAnotherIff`). From a new cache for two entries, storing
  `a`, `b` and `b` again loses a fresh `a` (`CacheRuns.OverwriteLosesAnotherFromNew`).
- A fallback address is `address:port` without brackets, so it is the endpoint the checker probes if
  and only if the address has no colon; an IPv6 upstream never is
  (`Upstreams.FallbackIsProbedEndpointIffNoColon`).
- Validation refuses blank filter patterns but not `.`, which the filter drops. So a validated
  configuration refuses some name if and only if its deny list holds more than dots, or its allow list
  holds more than dots and no `*` (`ConfigReloads.ValidatedFilterRefusesIff`); one that allows only `.`
  allows every name (`ConfigReloads.DotOnlyAllowsEverything`).
- A hit depends on an out-of-range float-to-uint32 conversion if and only if it reads a second or more
  before the entry's storage time and some record has a TTL (`CacheRuns.OutOfRangeShowsIffReadAhead`).
  That happens with no clock ever stepping back: a query whose exchange failed looks for a stale answer
  at its own start time, and a query that started a second or more later may have stored one meanwhile
  (`ProxyLateness.LateLookupReadsAhead`).
- Between callbacks the engine holds the current configuration if and only if the last callback that
  wrote anything did not lose it: it loses it exactly when it writes a different candidate, the reload
  fails, and then it is canceled or the old configuration is not written back
  (`ConfigAgents.EngineHoldsCurrentIffLastWriterKeepsIt`). `ConfigReloads.CancellationLeavesTheCandidate`
  is a run where that happens.
- The comment on the watcher's Run names create and write events; the code also reacts to rename,
  remove and chmod events, and the model follows the code.

## Model

| member | source | states |
|---|---|---|
| TokenBuckets.TokenBucket.Allow | pkg/proxy/proxy.go:515-538 | The call takes a token exactly when the refilled bucket holds one; a timestamp before the last refill refills nothing and becomes the last refill |
| TokenBuckets.AdmittedIffEveryWindowHolds | pkg/proxy/proxy.go:515-538 | With ordered timestamps a call is admitted if and only if, counting it, every window ending now stays within burst + rate * length |
| TokenBuckets.TokensAreLeastSlack | pkg/proxy/proxy.go:515-538 | The token count is the least slack over all windows, and some window attains it |
| TokenBuckets.AdmissionsBoundedByForwardSteps | pkg/proxy/proxy.go:515-538 | For timestamps in any order, admissions in a run are at most burst + rate * (sum of forward steps) |
| TokenBuckets.AdmittedIffEveryStandingWindowHolds | pkg/proxy/proxy.go:515-538 | For timestamps in any order a call is admitted if and only if, counting it, every window holds by a clock that follows the forward steps and stands still at the others |
| TokenBuckets.AccruesRatePerSecond | pkg/proxy/proxy.go:523-525 | A bucket gains its rate in every second, and time adds up |
| RequestLimiters.RequestLimiter.constructor | pkg/proxy/proxy.go:409-428 | Which buckets and table a configuration creates |
| RequestLimiters.RequestLimiter.Allow | pkg/proxy/proxy.go:430-443 | The object's state and answer are those of Admit: global token first, then the source's own or the overflow bucket |
| RequestLimiters.RequestLimiter.LookupPerSourceBucket | pkg/proxy/proxy.go:445-478 | Purge every 256th call, touch, make room, insert or overflow; returns the very bucket the table holds for the source |
| RequestLimiters.RequestLimiter.CleanupExpired | pkg/proxy/proxy.go:480-490 | Removes exactly the sources idle longer than a positive retention, in any iteration order |
| RequestLimiters.SameKeyIffSameCaller | pkg/proxy/proxy.go:446-449 | Two sources share a bucket if and only if they are the same text, or one is empty and the other is `unknown` |
| LimiterRuns.ForgettingIsUnobservable | pkg/proxy/proxy.go:430-490 | With ordered timestamps, a cap that never binds and a retention that is off or outlasts the refilling of an empty bucket, every answer is that of a limiter that forgets no source |
| LimiterRetention.ForgettingShowsIffRetentionIsShort | pkg/proxy/proxy.go:480-490 | For every per-source rate, burst, retention and positive cap: all new limiters answer all ordered runs within the cap as if nothing were forgotten, if and only if the retention is not positive or an empty bucket is full one nanosecond after it |
| LimiterRetention.ShortRetentionIsObservable | pkg/proxy/proxy.go:430-490 | Where that fails, a new limiter and an ordered run of one source within the cap whose last answer differs |
| LimiterRuns.AdmittedIffBothWindowsHold | pkg/proxy/proxy.go:430-538 | A call is admitted if and only if every global window of globally passed calls holds, and every window of the admitted calls from the same source text (`unknown` standing for the empty one) |
| LimiterRuns.FewSourcesNeverOverflow | pkg/proxy/proxy.go:461-466 | No more distinct sources than the cap: the cap never binds |
| LimiterRuns.OverflowsIffLiveSourcesFillTheCap | pkg/proxy/proxy.go:445-478 | A source the table does not hold is sent to the overflow bucket if and only if the unexpired sources fill the cap, and else gets a full bucket of its own |
| LimiterRuns.LiveSourceKeepsItsBucket | pkg/proxy/proxy.go:456-459 | A tracked, unexpired source keeps its bucket and is marked as seen, whatever is purged |
| LimiterRuns.ForgetsOnlyWhenDue | pkg/proxy/proxy.go:452-471 | Every 256th call, and a new source's call that finds the table full, forget exactly the expired sources; no other call forgets any |
| LimiterRuns.GlobalLimitAlone | pkg/proxy/proxy.go:430-443 | With no per-source limit a call is admitted if and only if every global window holds |
| LimiterRuns.SourceLimitAlone | pkg/proxy/proxy.go:430-443 | With no global limit a call is admitted if and only if every window of its source holds |
| LimiterRuns.NoLimitAdmitsAll | pkg/proxy/proxy.go:430-443 | With neither limit every call is admitted |
| LimiterRuns.TableNeverExceedsCap | pkg/proxy/proxy.go:445-478 | In every run the table holds at most maxSources sources |
| LimiterRuns.UntrackedSourcesShareOneBound | pkg/proxy/proxy.go:461-473 | All untracked sources together obey one overflow bucket's bound, for any timestamps |
| LimiterRuns.GlobalBucketAlongRun | pkg/proxy/proxy.go:430-443 | In every run the global bucket replays all calls in order, so a call its source's bucket refuses has spent a global token |
| LimiterInterleavings.CapHolds | pkg/proxy/proxy.go:445-478 | In all interleavings of concurrent calls the table holds at most maxSources sources |
| LimiterInterleavings.AdmissionsKeepGlobalBound | pkg/proxy/proxy.go:430-443 | In all interleavings the calls admitted are at most the global burst + rate * (sum of forward steps in the order the bucket was locked) |
| LimiterInterleavings.OverflowKeepsItsBound | pkg/proxy/proxy.go:461-473 | In all interleavings the untracked sources together keep the overflow bucket's bound |
| LimiterInterleavings.EveryOwnBucketKeepsItsBound | pkg/proxy/proxy.go:445-478 | In all interleavings each per-source bucket, even one already forgotten but still held by a call, serves calls of one source text only (`unknown` standing for the empty one) and keeps its bound |
| LimiterInterleavings.EveryTakeIsExact | pkg/proxy/proxy.go:515-538 | In all interleavings a take from any bucket succeeds if and only if, counting it, every window of that bucket's earlier takes holds by the standing clock of their timestamps |
| LimiterInterleavings.LookUpRefines | pkg/proxy/proxy.go:445-478 | The lookup by bucket identity is the lookup by value, with the same route |
| LimiterInterleavings.AloneIsAdmit | pkg/proxy/proxy.go:430-443 | From any reachable state, the call's own one or three steps with no other step in between are Admit, and no other call moves |
| ResponseCaches.MinResponseTTL | pkg/proxy/cache.go:198-223 | The three-section scan finds the specified least nonzero TTL |
| ResponseCaches.LeastNonzeroIsLeast | pkg/proxy/cache.go:198-223 | That value is below every nonzero TTL and is one of them, or there is none |
| ResponseCaches.CloneCachedResponse | pkg/proxy/cache.go:225-251 | The copy has the request's id and aged records in all three sections; the entry is unchanged |
| ResponseCaches.ResponseCache.Lookup | pkg/proxy/cache.go:44-66 | Serves exactly the fresh entry under the request's key |
| ResponseCaches.ResponseCache.LookupStale | pkg/proxy/cache.go:68-110 | Serves a fresh entry aged, an expired one within the stale window with every TTL 1, nothing else |
| ResponseCaches.ResponseCache.Store | pkg/proxy/cache.go:112-142 | Stores only cacheable responses with a positive TTL, purges first, and in a full cache evicts a legal victim |
| ResponseCaches.ResponseCache.EvictExpired | pkg/proxy/cache.go:144-150 | Deleting while ranging in any order leaves exactly the purged map |
| ResponseCaches.ResponseCache.EvictOldest | pkg/proxy/cache.go:152-165 | For any iteration order exactly one entry of minimal expiry goes; no key is empty, so the empty sentinel is sound |
| CacheRuns.UnboundedIsLastWrite | pkg/proxy/cache.go:112-142 | The reference cache maps each key to its last cacheable write |
| CacheRuns.EntriesAreSubMap | pkg/proxy/cache.go:112-165 | For any eviction choices the entries are a sub-map of the last-write map |
| CacheRuns.EveryHitIsAnUnboundedHit | pkg/proxy/cache.go:44-110 | Every fresh or stale hit is what the unbounded cache would return |
| CacheRuns.PurgeIsInvisible | pkg/proxy/cache.go:144-150 | Below capacity and with a forward clock both reads agree with the unbounded cache, misses included |
| CacheRuns.FewKeysNeverFill | pkg/proxy/cache.go:133-137 | Fewer distinct keys than maxEntries: nothing is ever evicted |
| CacheRuns.NeverMoreThanMaxEntries | pkg/proxy/cache.go:133-165 | In every run the cache holds at most maxEntries entries |
| CacheRuns.OverwriteLosesAnotherIff | pkg/proxy/cache.go:133-141 | Overwriting a key in a full cache loses another key's entry for some scan order if and only if another key has minimal expiry, and for every order if and only if the written key has not |
| CacheRuns.OverwriteLosesAnotherFromNew | pkg/proxy/cache.go:133-141 | A run from a new cache for two entries in which overwriting loses another, still fresh, entry |
| CacheRuns.PurgeRemovesExactlyTheUnservable | pkg/proxy/cache.go:144-150 | An entry is purged if and only if neither read can serve it now or at any later time |
| CacheRuns.EntriesStayWellTimed | pkg/proxy/cache.go:112-142 | Every entry's message has rcode 0 and is not truncated, and expires its own TTL after its storage; a TTL that comes from a record fits 63 bits of nanoseconds |
| CacheRuns.OnlyKeepableIsStored | pkg/proxy/cache.go:112-131 | Anything but a successful, untruncated answer to a question, with a TTL or a default to live by, leaves the cache as it is |
| CacheRuns.StoredAnswerIsServed | pkg/proxy/cache.go:44-142 | Right after its store such an answer is served to every request for the same name, type and class under that request's id: fresh exactly until its first TTL runs out, stale with every TTL 1 exactly for the stale time after that, then never |
| CacheRuns.EvictedExpiresFirst | pkg/proxy/cache.go:133-165 | An entry a full store drops expires no later than any other the purge left, and it is the only one dropped |
| CacheRuns.HitsAgeExactly | pkg/proxy/cache.go:225-251 | On a hit a nonzero TTL stays at least 1 and is within one second of the time left, so the clamp to zero is unreachable; a read less than a second before the storage counts as at it, and only an earlier one ages by the out-of-range conversion |
| CacheRuns.OutOfRangeShowsIffReadAhead | pkg/proxy/cache.go:225-240 | A hit, fresh or through the stale lookup, depends on the out-of-range conversion if and only if it reads a second or more before the storage and some record has a TTL |
| ProxyLateness.LateLookupReadsAhead | pkg/proxy/proxy.go:229-302 | From any new unfiltered proxy with two tokens per bucket, a run with ordered query times in which a stale lookup's TTL is whatever that conversion yields |
| Messages.KeysCollideOnlyForSameQuestion | pkg/proxy/cache.go:167-174 | Two requests share a key if and only if lower-cased name, type and class agree, even when names contain the separator |
| ConnPools.EngineConnPool.BorrowConn | pkg/proxy/connpool.go:93-113 | Refuses when closed, else hands out the most recently released connection, else asks for a dial |
| ConnPools.EngineConnPool.ReleaseConn | pkg/proxy/connpool.go:115-133 | Keeps the connection only in an open pool below its cap, else closes it |
| ConnPools.EngineConnPool.Close | pkg/proxy/connpool.go:76-91 | Closes exactly the idle connections and leaves none idle |
| ConnPools.EngineConnPool.Exchange | pkg/proxy/connpool.go:45-74 | A whole exchange: borrow, close on error, release on success |
| ConnPools.EveryConnectionInOnePlace | pkg/proxy/connpool.go:45-133 | In all interleavings each dialled connection is idle under its own network, held by one exchange, or closed once; idle stays within the cap; a closed pool idles nothing |
| ConnPools.ClosedStaysClosed | pkg/proxy/connpool.go:76-91 | No step reopens the pool |
| ConnPools.AfterCloseEverythingIsClosed | pkg/proxy/connpool.go:76-133 | After Close, once no exchange is in flight, every connection ever dialled has been closed exactly once |
| ConnPools.ExchangedIsARun | pkg/proxy/connpool.go:45-74 | The sequential exchange is what the interleaved steps do when nothing comes in between |
| ConnPools.ReleasedIsReusedNext | pkg/proxy/connpool.go:93-133 | A connection released into an open pool below its cap becomes idle, and the next borrow of its network hands out that very connection |
| ConnPools.NothingToReuse | pkg/proxy/connpool.go:93-133 | An open network with nothing idle dials; a closed pool hands out and keeps nothing; a full network keeps nothing more |
| ConnPools.FailedConnectionNeverReturns | pkg/proxy/connpool.go:65-70 | In all interleavings a connection whose round trip failed is closed once and is never idle or held again |
| DomainFilters.ParsePatterns | pkg/proxy/domainfilter.go:55-80 | The loop yields the specified patterns: blank ones dropped, `*` and `*.` as wildcards |
| DomainFilters.MatchesAny | pkg/proxy/domainfilter.go:82-103 | True if and only if some pattern matches |
| DomainFilters.Allowed | pkg/proxy/domainfilter.go:34-53 | Deny overrides; an empty allow list or an empty name passes |
| DomainFilters.WildcardMatchesIffLabelSuffix | pkg/proxy/domainfilter.go:82-103 | `*.b` matches d by the text test if and only if b's labels are a suffix of d's, for all strings |
| DomainFilters.FilterDecidesByLabels | pkg/proxy/domainfilter.go:20-103 | The built filter allows a name if and only if the label-level allow and deny rules do |
| DomainFilters.FilterIsMonotone | pkg/proxy/domainfilter.go:34-53 | More deny patterns only shrink the allowed set; more patterns in an effective allow list only grow it |
| DomainFilters.RefusesSomethingIff | pkg/proxy/domainfilter.go:20-103 | A filter refuses some name if and only if some deny pattern survives normalization, or some allow pattern does and none normalizes to `*` |
| DomainFilters.SameKeySameDecision | pkg/proxy/proxy.go:561-566 | Requests that share a cache entry always get the same filter decision |
| DomainFilters.NormalizedIsLowerCaseCore | pkg/proxy/domainfilter.go:39-61 | Blanks around a name, one final dot and letter case make no difference, and nothing else of the name is dropped |
| DomainFilters.RequestDecidedByLabels | pkg/proxy/proxy.go:561-566 | The filter's decision on a request is the label rule for its first question's name less one final dot |
| DomainFilters.DeniedNameIsRefused | pkg/proxy/domainfilter.go:34-53 | A request for a name on the deny list is refused in any letter case, with or without the final dot |
| Proxies.Proxy.UpdateFilter | pkg/proxy/proxy.go:151-161 | Filter and rcode are replaced together; rcode 0 becomes REFUSED |
| Proxies.Proxy.TryFallbackUpstreams | pkg/proxy/proxy.go:304-322 | The first fallback that answers, asked in order |
| Proxies.Proxy.PublishEvent | pkg/proxy/proxy.go:379-388 | Each event is queued or counted as dropped, never both |
| Proxies.Proxy.HandleQuery | pkg/proxy/proxy.go:229-302 | A query the limiter refuses gets an empty REFUSED; one whose question name the filter's labels refuse, and no other, is denied with the filter's rcode; both leave cache and pool alone; the rest is resolved from cache, engine, stale cache and fallbacks, and what is stored is what is answered; the event names the question |
| Proxies.DeniedIffLabelsRefuse | pkg/proxy/proxy.go:243-256 | After admission a query is denied exactly when the labels refuse its question name, with an empty reply of the filter's rcode |
| Proxies.SourcesInOrder | pkg/proxy/proxy.go:258-302 | A fresh hit is always used, the engine before a stale answer, a stale answer before the fallbacks, the first fallback that answers, and SERVFAIL only when all fail; only fetched answers and the SERVFAIL are offered to the cache |
| ProxyRuns.EveryReplyHasASource | pkg/proxy/proxy.go:229-302 | In all interleavings a cache or stale reply has the query's id and, like every cache entry, is otherwise a copy up to TTLs of an answer with rcode 0, not truncated, fetched for the same name, type and class; every other reply is fetched or empty with rcode 5, the filter's, or 2 |
| ProxyRuns.FilterDominates | pkg/proxy/proxy.go:243-256 | A query that reads the filter after an update and before the next gets an empty reply with that update's rcode (0 meaning 5) if and only if that update's labels refuse its question name, although the cache is not flushed |
| ProxyRuns.DeniedNameIsDenied | pkg/proxy/proxy.go:243-256 | So a query for a name on that update's deny list is denied, in any letter case, with or without the final dot |
| ProxyRuns.RefusedQueriesLeaveNoTrace | pkg/proxy/proxy.go:233-256 | No step of a rate-limited or denied query changes cache, pool or what was fetched |
| ProxyRuns.PoolKeepsEveryConnection | pkg/proxy/proxy.go:267-271 | The pool's invariant holds in every reachable state of the whole proxy |
| ProxyRuns.AfterCloseEverythingIsClosed | pkg/proxy/proxy.go:205-227 | Once the pool has been closed and every query has its reply, every connection ever dialled has been closed exactly once |
| ProxyRuns.LimiterKeepsItsBounds | pkg/proxy/proxy.go:229-241 | The limiter's invariant under concurrent calls holds in every reachable state of the whole proxy |
| ProxyRuns.ServedQueriesKeepGlobalBound | pkg/proxy/proxy.go:229-241 | In all interleavings the queries past the limiter and not refused by it are at most the global burst + rate * (sum of forward steps at the global bucket) |
| ProxyRuns.CacheIsARun | pkg/proxy/proxy.go:281-299 | In all interleavings the cache is its own run over the queries' stores in lock order, with victims the scan can choose |
| ProxyRuns.CacheKeepsItsCap | pkg/proxy/proxy.go:281-299 | In all interleavings the cache holds at most maxEntries entries |
| ProxyRuns.HitsAreLastWrites | pkg/proxy/proxy.go:258-281 | In all interleavings a fresh or stale hit is what the last cacheable write to its key gives |
| ProxyAlone.AloneIsAnswered | pkg/proxy/proxy.go:243-302 | An admitted query's own steps, with no other step in between, give the reply, pool and cache specified for the handler, and move no other query |
| ProxyAlone.AloneIsHandled | pkg/proxy/proxy.go:229-302 | A query's own steps from its arrival, with no other step in between, give the limiter, reply, pool and cache specified for the handler, refusal included |
| LineWriters.LineWriter.Write | pkg/engine/processlog/writer.go:79-103 | One Write emits the complete lines of buffer and chunk, and the flushed piece if the rest is overlong |
| LineWriters.LineWriter.Emit | pkg/engine/processlog/writer.go:105-132 | Skips empty lines, logs below the window's limit, announces suppression once |
| LineWriters.LineWriter.RotateWindowIfNeeded | pkg/engine/processlog/writer.go:134-153 | A window ends only after its duration, reporting what it suppressed |
| LineWriters.CutAnywhere | pkg/engine/processlog/writer.go:85-94 | Splitting a marked input in two and carrying the tail over splits it as a whole |
| LineWriters.StreamingEqualsBatch | pkg/engine/processlog/writer.go:79-103 | For any chunking the emitted lines are the batch lines of the whole input with a virtual break after each overlong remainder; the buffer is the unfinished tail and never exceeds 8192 bytes |
| LineWriters.UnmarkedIffNoOverflow | pkg/engine/processlog/writer.go:97-100 | There is a virtual break if and only if after some Write the unterminated end of the input is overlong |
| LineWriters.ChunkingDoesNotMatter | pkg/engine/processlog/writer.go:79-103 | Two chunkings of one input in which no Write overflows give the same lines and the same buffer, those of the whole input |
| LineWriters.ShortLinesNeverOverflow | pkg/engine/processlog/writer.go:97-100 | An input without overlong pieces overflows in no chunking |
| LineWriters.TerminatedWritesNeverOverflow | pkg/engine/processlog/writer.go:97-100 | Writes that all end with a newline never overflow, however long their lines |
| LineWriters.EveryLineAccountedFor | pkg/engine/processlog/writer.go:105-153 | Logged, reported-suppressed and not-yet-reported lines add up to the non-empty lines |
| LineWriters.LoggedTextsAreBatchLines | pkg/engine/processlog/writer.go:105-132 | The logged texts are a subsequence of the batch lines, unchanged |
| LineWriters.AtMostTwoWindowsOfLines | pkg/engine/processlog/writer.go:105-153 | With a forward clock any half-open interval of one window length sees at most twice the limit |
| LineWriters.WindowsAreExact | pkg/engine/processlog/writer.go:105-153 | With a forward clock, after every run the log holds exactly as many of the current window's lines as counted, exactly the limit once lines are suppressed, and then one announcement; the defaults are 200 lines and a minute |
| LineWriters.LineLoggedIffWindowHasRoom | pkg/engine/processlog/writer.go:105-132 | A non-empty line is logged if and only if the log holds fewer lines of its window than the limit |
| LineWriters.FewLinesAreAllLogged | pkg/engine/processlog/writer.go:105-120 | In every run whose stream has at most the limit's non-empty lines, the logged texts are those lines and nothing is suppressed |
| LineWriters.NewWindowLogsAgain | pkg/engine/processlog/writer.go:134-153 | In every run, a Write whose window is over logs all its lines, up to the limit |
| LineWriters.WriteReportsSuppressed | pkg/engine/processlog/writer.go:79-84 | In every run, a Write whose window is over first reports what it suppressed, even if it completes no line |
| LineWriters.SplittingUndoesWriting | pkg/engine/processlog/writer.go:85-94 | Splitting lines written with newlines and any number of carriage returns before them gives back the lines |
| Upstreams.LabelsInjective | pkg/health/checker.go:335-360 | Two targets have the same label if and only if address, port and transport agree |
| Upstreams.LabelReadsAsEndpoint | pkg/health/checker.go:335-360 | A label is the bracketed host and the decimal port (53, 853 or 443 when it is zero), with `dot://` or `doh://` in front for those transports |
| Upstreams.ValidateUpstreams | cmd/agent/main.go:596-638 | Accepts exactly the lists with valid, pairwise different upstreams, else names the first offender and why |
| Upstreams.ValidIffEveryFieldIs | cmd/agent/main.go:598-630 | An upstream passes the single checks if and only if each field does: address without blanks and valid, a known transport, port, TLS name, weight and preference in range |
| Upstreams.FilledInCompletely | cmd/agent/main.go:1071-1094 | Loading writes the transport as `dns`, `dot` or `doh`, fills in its port, the TLS name, weight 1 and preference 100, and keeps the rest |
| Upstreams.ProbedCompletely | pkg/health/checker.go:116-123 | The checker's target has the address, the transport's port when it is zero, and no TLS name on plain DNS |
| Upstreams.DeduplicatedKeepsFirsts | pkg/health/checker.go:124-130 | De-duplication keeps exactly the first target of each label, in order |
| Upstreams.DeduplicatedIsDistinct | pkg/health/checker.go:124-130 | No two targets of the result share a label, and every label of the list is there |
| Upstreams.AcceptedIffDistinctLabels | cmd/agent/main.go:596-638 | A list of valid upstreams is accepted if and only if its health labels are pairwise different |
| Upstreams.DeduplicationDropsNothing | pkg/health/checker.go:113-130 | For an accepted list with defaults filled in, the checker's de-duplication keeps every target, in order |
| Upstreams.FallbackUpstreamsFromConfig | cmd/agent/main.go:1166-1179 | The plain-DNS upstreams' addresses, in order |
| Upstreams.FallbacksAreThePlainEndpoints | cmd/agent/main.go:1166-1179 | The fallbacks are, upstream by upstream, the address, a colon and the decimal port (53 when zero) of those with transport `dns` |
| Upstreams.FallbackIsProbedEndpointIffNoColon | cmd/agent/main.go:1166-1179 | A fallback address is the endpoint the checker probes if and only if the address has no colon |
| Upstreams.IPv6FallbackDiffers | cmd/agent/main.go:1166-1179 | A concrete IPv6 upstream that validation accepts, whose fallback address is not its endpoint |
| HealthCheckers.Checker.RecordFailure | pkg/health/checker.go:301-320 | Counts, and marks unhealthy from the threshold on |
| HealthCheckers.Checker.RecordHealthy | pkg/health/checker.go:322-333 | Resets the count and marks healthy |
| HealthCheckers.Checker.UpdateUpstreams | pkg/health/checker.go:113-165 | The three loops give the specified update: first occurrences kept, retained labels untouched, the rest dropped, new ones unhealthy |
| HealthCheckers.Checker.HasHealthyUpstream | pkg/health/checker.go:168-178 | True if and only if some label is healthy |
| HealthCheckers.CountIsFailuresSinceSuccess | pkg/health/checker.go:301-333 | Over every history the count is the number of failures since the last success or removal |
| HealthCheckers.HealthyIffSucceededBelowThreshold | pkg/health/checker.go:301-333 | Over every history a label is healthy if and only if it has succeeded since it was last removed and its count is below the threshold |
| HealthCheckers.SomeHealthyIffSomeSucceeded | pkg/health/checker.go:168-178 | Over every history some upstream counts as healthy if and only if some label has succeeded, was not removed since, and is below the threshold (3 by default) |
| HealthCheckers.TrackedIffNamedSinceKept | pkg/health/checker.go:133-165 | Over every history failures are counted for exactly the labels updated in or probed and not removed since; right after an update both maps know exactly its labels, those kept with their state |
| ConfigWatchers.ConfigWatcher.WatchLoop | pkg/watcher/watcher.go:79-126 | The loop's variables follow the timed state machine turn by turn |
| ConfigWatchers.ReloadsWaitForQuiet | pkg/watcher/watcher.go:92-115 | Each reload starts at least the debounce after the last relevant event processed before it |
| ConfigWatchers.NoUpdateIsLost | pkg/watcher/watcher.go:92-125 | Whenever no timer is pending, the last reload began after the last processed relevant event |
| ConfigWatchers.ReloadsNeverOutnumberEvents | pkg/watcher/watcher.go:92-125 | There are at most as many reloads as relevant events |
| ConfigWatchers.LoopFollowsItsEvents | pkg/watcher/watcher.go:82-125 | The loop runs until the context or a channel ends it, reloads once per firing of its timer until then, and errors and irrelevant events change nothing |
| ConfigWatchers.TimerIsDueAfterLastEvent | pkg/watcher/watcher.go:103-107 | A pending timer is due the debounce after the last relevant event, which no reload has seen yet |
| UnboundEngines.UnboundEngine.Configure | pkg/engine/unbound/engine.go:44-69 | Only a written file changes the remembered configuration; a failed write may spoil the file |
| UnboundEngines.UnboundEngine.Start | pkg/engine/unbound/engine.go:72-95 | Refusals in the code's order: already running, not configured, context done, launch failed |
| UnboundEngines.StartRefusedFor | pkg/engine/unbound/engine.go:72-95 | Each refusal has exactly its reason and changes nothing; otherwise the engine runs |
| UnboundEngines.UnboundEngine.Stop | pkg/engine/unbound/engine.go:112-134 | The process is forgotten before it is signalled, whatever signalling returns |
| ConfigReloads.ValidatedIffEveryPartIs | cmd/agent/main.go:580-673 | A configuration is valid if and only if its other settings are, it has upstreams, each valid in itself and with a label of its own, no filter pattern is blank and its action is known |
| ConfigReloads.LoadKeepsWhatTheFileSays | cmd/agent/main.go:1035-1114 | A missing file means the default upstream 1.1.1.1:53 and no filter; a file's filter lists and action are kept and each of its upstreams is filled in |
| ConfigReloads.TargetsAreKept | cmd/agent/main.go:1152-1164 | For every configuration that was loaded and validated, the checker's target list is the configured upstream list |
| ConfigReloads.ValidatedFilterRefusesIff | cmd/agent/main.go:658-667 | A validated configuration's filter refuses some name if and only if some deny pattern is more than a dot, or some allow pattern is and none is `*` |
| ConfigReloads.DotsRestrictNothing | pkg/proxy/domainfilter.go:34-80 | With an allow list of dots a name is allowed if and only if the deny list alone allows it |
| ConfigReloads.DotOnlyAllowsEverything | cmd/agent/main.go:658-667 | A configuration that validates, allows only `.` and denies nothing has no filter and allows every name |
| ConfigReloads.EverythingDerivesFromTheLastGoodConfig | cmd/agent/main.go:335-459 | Between callbacks, in every interleaving with supervisor and probes, the current configuration was validated and is the last one the engine both took and reloaded; there is one target per upstream of it, field by field, and filter and fallbacks are its own; the rcode is 3 if and only if its action is `nxdomain`, 5 if and only if it is `refused` or empty |
| ConfigAgents.DeniedAsConfigured | cmd/agent/main.go:434-442 | Between callbacks an admitted query is denied exactly when the current configuration's labels refuse its name, with an empty NXDOMAIN or REFUSED as its action says |
| ConfigReloads.EngineHoldsCurrentIffLastWriteDidNotStray | cmd/agent/main.go:389-419 | Between callbacks, in every interleaving, the engine remembers (and its file holds) the current configuration if and only if the last write neither broke the file nor put in a different candidate that was not then reloaded |
| ConfigReloads.AppliedOrRolledBackLeavesCurrent | cmd/agent/main.go:389-459 | After an applied or rolled-back callback, until a later one is canceled or fails to roll back, the engine's last Configure and its file are the current configuration |
| ConfigAgents.EngineHoldsCurrentIffLastWriterKeepsIt | cmd/agent/main.go:389-419 | Over whole callbacks, the engine holds the current configuration if and only if the last callback whose inputs make it write does not lose it |
| ConfigAgents.WriterDecides | cmd/agent/main.go:389-419 | For one callback from any engine state: if it writes, its inputs alone decide whether the engine then holds the current configuration; if not, nothing changes |
| ConfigReloads.EngineIsNeverGivenAnUnfitConfig | cmd/agent/main.go:335-459 | Every Configure the callback makes, rollbacks included, is of a loaded and validated configuration |
| ConfigReloads.OneCounterPerCallback | cmd/agent/main.go:335-459 | Each finished callback bumps exactly one of the success and error counters, the first exactly when applied |
| ConfigReloads.EveryAttemptCounted | cmd/agent/main.go:824-846 | Every recovery attempt ends as exactly one success or error |
| ConfigReloads.CheckerFollowsItsEvents | cmd/agent/main.go:431-432 | In every interleaving the checker's state is its own run over the probe results and the updates of accepted candidates, so its hysteresis holds across reloads |
| ConfigReloads.RestartsFailOnlyToLaunch | cmd/agent/main.go:800-848 | A supervisor restart is never refused as already running or not configured; it fails exactly when the context is done or the launch fails |
| ConfigReloads.CancellationLeavesTheCandidate | cmd/agent/main.go:389-405 | A run in which cancellation leaves the rejected candidate in the engine while the agent keeps its configuration |
| ConfigAgents.ValidateEngineConfig | cmd/agent/main.go:580-673 | Accepts exactly the validated configurations |
| ConfigAgents.ConfigAgent.ApplyConfigReload | cmd/agent/main.go:779-788 | Configure, and Reload only if that succeeded |
| ConfigAgents.ConfigAgent.ReloadConfig | cmd/agent/main.go:335-459 | The callback ends with the outcome its inputs determine, leaves the specified current configuration and engine configuration, and acts on checker, filter, fallbacks and engine as a run of the state machine |
| ConfigAgents.OutcomesSayWhatHappened | cmd/agent/main.go:335-459 | Each of the six outcomes occurs exactly for its inputs |
| ConfigAgents.ConfigAgent.SuperviseEngine | cmd/agent/main.go:800-848 | A tick does nothing for a responsive engine, else stops and starts it and counts the result |

## Left out

- Sockets, DNS wire format, TLS and HTTP probes, fsnotify, template rendering and process spawning: their results are parameters or step choices.
- Floating-point rounding of tokens and elapsed seconds: tokens are `real`, seconds are exact integer division.
- Text outside ASCII: lower-casing and trimming cover ASCII letters and white space; text order and encoding play no part.
- The width of `requestCount`: it is unbounded here; 256 divides 2^64, so the every-256th-call purge is the same.
- Saturation of time differences beyond 292 years.
- RequestLimiters.RequestLimiter.Allow: the object runs one call at a time; concurrent calls are the steps of LimiterInterleavings, which are exact bucket by bucket.
- ResponseCaches.CloneCachedResponse: what the platform makes of elapsed seconds that do not fit uint32 is the parameter `outOfRange`, as the conversion is implementation-defined; CacheRuns says exactly when it shows.
- ProxyRuns.EveryReplyHasASource: the response's own question section is not compared with the request's, since the code does not compare it.
- A nil limiter or cache, which the constructor's defaults rule out; the limiter's nil buckets are modelled.
- Records without a header, and OPT records: every record is a TTL and opaque data, as the code treats them.
- The timestamp, source, latency and cache fields of query events.
- `isValidUpstreamAddress`, `isDNS1123Subdomain` and `defaultTLSServerName`: predicate and function parameters of validation and loading.
- The scalar engine settings (listen address, port, threads, DNSSEC mode, cache sizes) and their checks: one opaque field with an opaque check.
- The per-engine normalisation of a configuration and the engines other than Unbound; `astradns-types` is not part of this model, and the filter actions are taken to be the words its error message names.
- Which file a running process was started or reloaded with, and that at most one process exists: `Stop` forgets the process before signalling it, so neither is an invariant.
- The probes' own retry and timeout rules; a probe is a success or a failure of a label.
- `synchronizedEngine`: each engine call is one step here, which is what its mutex gives.
- `fanOut`, Prometheus registration, tracing, HTTP handlers, environment parsing, bearer tokens, `pkg/diagnostics` and `pkg/logging`.
