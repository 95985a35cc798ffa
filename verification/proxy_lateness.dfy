/**
 A run in which a stale lookup reads a second or more ahead of the entry's storage, although no clock
 ever steps back: the lookup uses its query's start time, and a later query has answered meanwhile.
 */
module ProxyLateness {
  import opened Wrappers
  import opened Messages
  import opened TokenBuckets
  import opened DomainFilters
  import opened Proxies
  import opened ProxyRuns
  import opened ProxyAlone
  import Limiting = LimiterInterleavings

  const SECOND := Caching.SECOND

  // ---------------------------------------------------------------- two calls of one source

  /** A new limiter whose buckets hold two tokens or more, with room for a source. */
  ghost predicate TwoTokens(l: RequestLimiters.Limiter) {
    && l.global.Some? && l.global.value.Full() && l.global.value.burst >= 2.0
    && l.table.Some?
    && var t := l.table.value;
       t.rate > 0.0 && t.burst >= 2 && t.maxSources > 0 && t.entries == map[] && t.requestCount == 0
  }

  lemma FullTakes(b: Bucket, at: int)
    requires b.Full()
    ensures Take(b, at).1 && Take(b, at).0 == b.(tokens := b.burst - 1.0, lastRefill := at)
  {
    if at > b.lastRefill {
      AccruedGrows(b.rate, 0, at - b.lastRefill);
    }
  }

  lemma TakesAgain(b: Bucket, at: int)
    requires b.Valid() && b.tokens >= 1.0
    ensures Take(b, at).1
  {
    if at > b.lastRefill {
      AccruedGrows(b.rate, 0, at - b.lastRefill);
    }
  }

  lemma TwoCallsPass(l: RequestLimiters.Limiter, source: string, at: int, later: int)
    requires TwoTokens(l)
    ensures var (l1, verdict) := RequestLimiters.Admit(l, source, at);
            verdict.Admits() && RequestLimiters.Admit(l1, source, later).1.Admits()
  {
    var t, key := l.table.value, RequestLimiters.KeyOf(source);
    var b := NewBucket(t.rate, t.burst, at).value;
    FullTakes(l.global.value, at);
    FullTakes(b, at);
    var spent := Take(b, at).0;
    var l1 := RequestLimiters.Admit(l, source, at).0;
    assert l1.table.value.entries == map[key := RequestLimiters.Entry(spent, at)];
    TakesAgain(l1.global.value, later);
    TakesAgain(spent, later);
    hide Take;
    var t1 := RequestLimiters.Counted(l1.table.value, later);
    assert t1.entries == l1.table.value.entries;
  }

  // ---------------------------------------------------------------- the run

  /** A new proxy without a filter, with an empty cache and such a limiter. */
  ghost predicate Ready(s: System) {
    && Initial(s) && TwoTokens(Limiting.LimiterOf(s.limiter)) && s.policy == Policy([], [], 0)
    && s.cache.maxEntries > 0 && s.cache.staleTTL >= 0 && s.pool.pool.maxPerNetwork > 0
  }

  function Asks(request: Msg, source: string, start: int): Query {
    Query(request, source, Pooling.Udp, start)
  }

  /** The first query's dial fails; the second one's connection answers. */
  function FailingWorld(): World {
    World(None, None, (_, _) => None, 0)
  }

  function AnsweringWorld(answer: Msg): World {
    World(Some(0), Some(answer), (_, _) => None, 0)
  }

  /** Query 1 has asked the engine in vain and has yet to look for a stale answer. */
  ghost predicate FirstFailed(s: System, end: System, q: Query) {
    && end.tasks == map[1 := Task(q, Failed)]
    && end.cache == s.cache && end.policy == s.policy && end.fallbacks == s.fallbacks
    && Limiting.LimiterOf(end.limiter) == RequestLimiters.Admit(Limiting.LimiterOf(s.limiter), q.source, q.start).0
    && end.limiter.calls.Keys == {1} && end.limiter.buckets.Keys <= {0} && end.limiter.births.Keys <= {0}
    && end.pool.pool == s.pool.pool && end.pool.exchanges.Keys == {1} && end.pool.dialled == map[]
  }

  lemma {:induction false} FirstAlone(s: System, request: Msg, source: string, start: int) returns (steps: seq<Step>)
    requires Ready(s)
    ensures IsRun(s, steps) && FirstFailed(s, Run(s, steps), Asks(request, source, start))
  {
    hide IsRun, Run, RequestLimiters.Admit, Limiting.LimiterOf, OwnSteps, TwoTokens, SetRcode;
    var q := Asks(request, source, start);
    NoStepsYet(s);
    ProxyAlone.OneMoreStep(s, [], Arrive(1, q));
    steps := [] + [Arrive(1, q)];
    TwoCallsPass(Limiting.LimiterOf(s.limiter), source, start, start);
    steps := AdmittedAlone(s, steps, 1, 0);
    NoFilter(request);
    ProxyAlone.OneMoreStep(s, steps, ReadFilter(1));
    steps := steps + [ReadFilter(1)];
    ProxyAlone.OneMoreStep(s, steps, LookUp(1, 0));
    steps := steps + [LookUp(1, 0)];
    steps := ExchangeAlone(s, steps, 1, FailingWorld());
  }

  lemma NoFilter(request: Msg)
    ensures FilterOf([], []) == None && Policy([], [], 0).Allows(request)
  {
  }

  /** An answer the cache keeps for the given number of seconds. */
  function Fresh(ttl: Word, data: string): Msg {
    Msg(0, RCODE_SUCCESS, false, [], [RR(ttl, data)], [], [])
  }

  /** What the cache holds once the second query has stored its answer. */
  function Kept(c: Caching.Cache, request: Msg, answer: Msg, at: int): Caching.Cache
    requires request.question != []
  {
    c.(entries := map[CacheKey(Some(request)).value := Caching.NewEntry(c, answer, at)])
  }

  lemma AnswersAndKeeps(c: Caching.Cache, p: Pooling.Pool, fallbacks: seq<string>, request: Msg, at: int, answer: Msg)
    requires c.entries == map[] && c.maxEntries > 0 && request.question != []
    requires Caching.IsCacheable(Some(answer)) && Caching.EntryTTL(answer, c.defaultTTL) > 0
    requires !p.closed && p.udp == p.tcp == []
    ensures var (reply, _, store) := Answered(None, RCODE_REFUSED, c, p, fallbacks, request, "udp", at,
                                              AnsweringWorld(answer));
            && reply == Reply(Engine, answer) && store
            && Caching.LegalVictim(c, Some(request), Some(answer), at, "")
            && CacheAfter(c, request, reply, store, at, "") == Kept(c, request, answer, at)
  {
    assert Caching.Purged(c, at) == map[];
  }

  /** The second query arrives later, is answered by the engine, and its answer is kept. */
  lemma {:induction false} SecondAlone(
    s: System, past: seq<Step>, request: Msg, source: string, start: int, later: int, answer: Msg)
    returns (steps: seq<Step>)
    requires Ready(s) && IsRun(s, past) && FirstFailed(s, Run(s, past), Asks(request, source, start))
    requires request.question != []
    requires Caching.IsCacheable(Some(answer)) && Caching.EntryTTL(answer, s.cache.defaultTTL) > 0
    ensures IsRun(s, steps)
    ensures var end := Run(s, steps);
            && end.tasks == map[1 := Task(Asks(request, source, start), Failed),
                                2 := Task(Asks(request, source, later), Done(Reply(Engine, answer)))]
            && end.cache == Kept(s.cache, request, answer, later)
  {
    hide IsRun, Run, RequestLimiters.Admit, Limiting.LimiterOf, OwnSteps, TwoTokens, SetRcode, Answered, CacheAfter,
         Caching.LegalVictim, Caching.IsCacheable, Caching.EntryTTL, Kept;
    var q := Asks(request, source, later);
    ProxyAlone.OneMoreStep(s, past, Arrive(2, q));
    steps := past + [Arrive(2, q)];
    var s0 := Run(s, steps);
    NoFilter(request);
    AnswersAndKeeps(s0.cache, s0.pool.pool, s0.fallbacks, request, later, answer);
    TwoCallsPass(Limiting.LimiterOf(s.limiter), source, start, later);
    steps := AloneIsHandled(s, steps, 2, 1, AnsweringWorld(answer), "");
  }

  /**
   From any new proxy without a filter: a query starts, its exchange fails; a second query of the same
   source starts a second or more later, is answered, and its answer is kept; then the first query's
   stale lookup serves that answer, its TTL aged by whatever the out-of-range conversion yields.
   */
  lemma {:induction false} LateLookupReadsAhead(
    s: System, request: Msg, source: string, start: int, later: int, ttl: Word, data: string)
    returns (steps: seq<Step>)
    requires Ready(s) && request.question != [] && start + SECOND <= later && ttl > 0
    ensures IsRun(s, steps) && In(Run(s, steps), 1, Failed) && Run(s, steps).tasks[1].query.start == start
    ensures forall a: Word ::
              var step := LookUpStale(1, a);
              Enabled(Run(s, steps), step) &&
              In(Apply(Run(s, steps), step), 1,
                 Done(Reply(StaleHit, Fresh(Caching.AgedTTL(ttl, a), data).(id := request.id))))
  {
    hide IsRun, Run, Caching.GetStale, Kept, Caching.IsCacheable, Caching.EntryTTL, Fresh, TwoTokens, Caching.AgedTTL;
    var answer := Fresh(ttl, data);
    AnswerKept(answer, ttl, data, s.cache.defaultTTL);
    steps := FirstAlone(s, request, source, start);
    steps := SecondAlone(s, steps, request, source, start, later, answer);
    var end := Run(s, steps);
    forall a: Word ensures Caching.GetStale(end.cache, Some(request), start, a) ==
                           Some(Fresh(Caching.AgedTTL(ttl, a), data).(id := request.id)) {
      ReadAhead(s.cache, request, start, later, ttl, data, a);
    }
  }

  lemma AnswerKept(answer: Msg, ttl: Word, data: string, fallback: int)
    requires answer == Fresh(ttl, data) && ttl > 0
    ensures Caching.IsCacheable(Some(answer)) && Caching.EntryTTL(answer, fallback) == ttl * SECOND > 0
  {
    var records := [RR(ttl, data)];
    assert Records(answer) == records && records[..0] == [] && Caching.LeastNonzero(records) == ttl;
  }

  lemma ReadAhead(c: Caching.Cache, request: Msg, start: int, later: int, ttl: Word, data: string, a: Word)
    requires request.question != [] && start + SECOND <= later && ttl > 0
    ensures Caching.GetStale(Kept(c, request, Fresh(ttl, data), later), Some(request), start, a) ==
            Some(Fresh(Caching.AgedTTL(ttl, a), data).(id := request.id))
  {
    AnswerKept(Fresh(ttl, data), ttl, data, c.defaultTTL);
    var e := Caching.NewEntry(c, Fresh(ttl, data), later);
    assert Caching.Find(Kept(c, request, Fresh(ttl, data), later).entries, Some(request)) == Some(e);
    assert e.expiresAt > start && Caching.ElapsedSeconds(later, start, a) == a;
    hide Kept, Caching.EntryTTL, CacheKey, Caching.AgedTTL;
    assert Caching.AgedRecords([RR(ttl, data)], a) == [RR(Caching.AgedTTL(ttl, a), data)];
    assert Caching.AgedRecords([], a) == [];
  }
}
