/**
 Whole runs of the proxy: any number of queries in flight, every critical section one atomic step,
 filter and fallback list replaced at any time. The limiter and the pool move by their own steps.
 */
module ProxyRuns {
  import opened Wrappers
  import opened Messages
  import opened DomainFilters
  import opened Proxies
  import Limiting = LimiterInterleavings
  import opened Sets
  import opened Texts
  import opened TokenBuckets
  import CacheRuns

  datatype Query = Query(request: Msg, source: string, network: Pooling.Network, start: int)

  /** The arguments of one filter update. */
  datatype Policy = Policy(allow: seq<string>, deny: seq<string>, rcode: nat) {
    predicate Allows(request: Msg) {
      IsAllowed(FilterOf(allow, deny), NormalizeDomain(Some(request)))
    }
  }

  /** What a query does next. */
  datatype Phase =
    | Arrived | Admitted | Passed | Exchanging | Failed | StaleMissed
    | Asking(left: seq<string>)
    | Storing(reply: Reply)
    | Done(reply: Reply)

  datatype Task = Task(query: Query, phase: Phase)

  /** An answer the engine or a fallback gave to a request. */
  datatype Returned = Returned(request: Msg, response: Msg)

  datatype System = System(
    limiter: Limiting.System, policy: Policy, fallbacks: seq<string>, cache: Caching.Cache, pool: Pooling.System,
    tasks: map<nat, Task>, returned: seq<Returned>)

  datatype Step =
    | Arrive(id: nat, query: Query)
    | LimiterStep(limit: Limiting.Step)
    | Judge(id: nat)
    | ReadFilter(id: nat)
    | LookUp(id: nat, outOfRange: Word)
    | PoolStep(step: Pooling.Step)
    | EngineReturns(id: nat, answer: Option<Msg>)
    | LookUpStale(id: nat, outOfRange: Word)
    | ReadFallbacks(id: nat)
    | AskFallback(id: nat, answer: Option<Msg>)
    | Store(id: nat, victim: string)
    | UpdateFilter(policy: Policy)
    | UpdateFallbacks(fallbacks: seq<string>)

  ghost predicate In(s: System, id: nat, phase: Phase) {
    id in s.tasks && s.tasks[id].phase == phase
  }

  /** The store a query makes, given the key its eviction scan would choose. */
  function StoreCallOf(q: Query, reply: Reply, victim: string): CacheRuns.StoreCall {
    CacheRuns.StoreCall(Some(q.request), Some(reply.message), q.start, victim)
  }

  ghost predicate Enabled(s: System, step: Step) {
    match step
    case Arrive(id, _) => id !in s.tasks
    case LimiterStep(l) =>
      && Limiting.Enabled(s.limiter, l)
      && (l.Begin? ==>
            In(s, l.call, Arrived) && (l.source, l.at) == (s.tasks[l.call].query.source, s.tasks[l.call].query.start))
    case Judge(id) => In(s, id, Arrived) && id in s.limiter.calls && s.limiter.calls[id].phase.Done?
    case ReadFilter(id) => In(s, id, Admitted)
    case LookUp(id, _) => In(s, id, Passed)
    case PoolStep(p) =>
      Pooling.Enabled(s.pool, p) && (p.Begin? ==> In(s, p.id, Exchanging) && p.net == s.tasks[p.id].query.network)
    case EngineReturns(id, answer) =>
      && In(s, id, Exchanging) && id in s.pool.exchanges && s.pool.exchanges[id].Done?
      && (answer.Some? ==> s.pool.exchanges[id].answered)
    case LookUpStale(id, _) => In(s, id, Failed)
    case ReadFallbacks(id) => In(s, id, StaleMissed)
    case AskFallback(id, _) => id in s.tasks && s.tasks[id].phase.Asking?
    case Store(id, victim) =>
      && id in s.tasks && s.tasks[id].phase.Storing?
      && CacheRuns.Legal(s.cache, StoreCallOf(s.tasks[id].query, s.tasks[id].phase.reply, victim))
    case UpdateFilter(_) => true
    case UpdateFallbacks(_) => true
  }

  ghost function To(s: System, id: nat, phase: Phase): System
    requires id in s.tasks
  {
    s.(tasks := s.tasks[id := s.tasks[id].(phase := phase)])
  }

  ghost function Logged(s: System, id: nat, response: Msg): System
    requires id in s.tasks
  {
    s.(returned := s.returned + [Returned(s.tasks[id].query.request, response)])
  }

  ghost function Apply(s: System, step: Step): System
    requires Enabled(s, step)
  {
    match step
    case Arrive(id, query) => s.(tasks := s.tasks[id := Task(query, Arrived)])
    case LimiterStep(l) => s.(limiter := Limiting.Apply(s.limiter, l))
    case Judge(id) =>
      To(s, id, if s.limiter.calls[id].phase.admitted then Admitted
                else Done(Reply(RateLimited, SetRcode(s.tasks[id].query.request, RCODE_REFUSED))))
    case ReadFilter(id) =>
      var request := s.tasks[id].query.request;
      To(s, id, if s.policy.Allows(request) then Passed
                else Done(Reply(Denied, SetRcode(request, RcodeOr(s.policy.rcode)))))
    case LookUp(id, outOfRange) =>
      var q := s.tasks[id].query;
      var hit := Caching.Get(s.cache, Some(q.request), q.start, outOfRange);
      To(s, id, if hit.Some? then Done(Reply(CacheHit, hit.value)) else Exchanging)
    case PoolStep(p) => s.(pool := Pooling.Apply(s.pool, p))
    case EngineReturns(id, answer) =>
      if answer.None? then To(s, id, Failed)
      else To(Logged(s, id, answer.value), id, Storing(Reply(Engine, answer.value)))
    case LookUpStale(id, outOfRange) =>
      var q := s.tasks[id].query;
      var stale := Caching.GetStale(s.cache, Some(q.request), q.start, outOfRange);
      To(s, id, if stale.Some? then Done(Reply(StaleHit, stale.value)) else StaleMissed)
    case ReadFallbacks(id) => To(s, id, Asking(s.fallbacks))
    case AskFallback(id, answer) =>
      var left := s.tasks[id].phase.left;
      if left == [] then
        To(s, id, Storing(Reply(Engine, SetRcode(s.tasks[id].query.request, RCODE_SERVER_FAILURE))))
      else if answer.None? then To(s, id, Asking(left[1..]))
      else To(Logged(s, id, answer.value), id, Storing(Reply(Fallback, answer.value)))
    case Store(id, victim) =>
      var q, reply := s.tasks[id].query, s.tasks[id].phase.reply;
      To(s.(cache := Caching.Stored(s.cache, Some(q.request), Some(reply.message), q.start, victim)), id, Done(reply))
    case UpdateFilter(policy) => s.(policy := policy)
    case UpdateFallbacks(fallbacks) => s.(fallbacks := fallbacks)
  }

  ghost predicate Initial(s: System) {
    && Limiting.Initial(s.limiter) && s.cache.entries == map[] && Pooling.Initial(s.pool)
    && s.tasks == map[] && s.returned == []
  }

  ghost predicate IsRun(s: System, steps: seq<Step>)
    decreases |steps|, 0
  {
    steps == [] ||
    (IsRun(s, steps[..|steps| - 1]) && Enabled(Run(s, steps[..|steps| - 1]), steps[|steps| - 1]))
  }

  ghost function Run(s: System, steps: seq<Step>): System
    requires IsRun(s, steps)
    decreases |steps|, 1
  {
    if steps == [] then s else Apply(Run(s, steps[..|steps| - 1]), steps[|steps| - 1])
  }

  // ---------------------------------------------------------------- provenance

  /** Some earlier answer for the same name, type and class, cacheable, is the message but for Id and TTLs. */
  ghost predicate ComesFrom(r: Returned, request: Msg, message: Msg) {
    && r.response.rcode == 0 && !r.response.truncated
    && message.id == request.id && CopyUpToIdAndTtls(message, r.response)
    && r.request.question != [] && request.question != []
    && SameQuestion(r.request.question[0], request.question[0])
  }

  ghost predicate StoredFrom(r: Returned, key: string, message: Msg) {
    && r.response.rcode == 0 && !r.response.truncated && message == r.response
    && CacheKey(Some(r.request)) == Some(key)
  }

  ghost predicate EntriesReturned(s: System) {
    forall k :: k in s.cache.entries ==> exists r :: r in s.returned && StoredFrom(r, k, s.cache.entries[k].message)
  }

  /** What each reply may be, wherever it came from. */
  ghost predicate ReplyExplained(s: System, request: Msg, reply: Reply) {
    match reply.origin
    case RateLimited => EmptyReply(reply.message, request, 5)
    case Denied => reply.message.rcode != 0 && EmptyReply(reply.message, request, reply.message.rcode)
    case CacheHit => exists r :: r in s.returned && ComesFrom(r, request, reply.message)
    case StaleHit => exists r :: r in s.returned && ComesFrom(r, request, reply.message)
    case Fallback => Returned(request, reply.message) in s.returned
    case Engine =>
      Returned(request, reply.message) in s.returned || EmptyReply(reply.message, request, 2)
  }

  ghost predicate RepliesExplained(s: System) {
    forall id :: id in s.tasks && (s.tasks[id].phase.Done? || s.tasks[id].phase.Storing?) ==>
      ReplyExplained(s, s.tasks[id].query.request, s.tasks[id].phase.reply)
  }

  ghost predicate StoringIsFetched(s: System) {
    forall id :: id in s.tasks && s.tasks[id].phase.Storing? ==>
      s.tasks[id].phase.reply.origin.Engine? || s.tasks[id].phase.reply.origin.Fallback?
  }

  ghost predicate Sourced(s: System) {
    EntriesReturned(s) && RepliesExplained(s) && StoringIsFetched(s)
  }

  lemma HitsCopyEntries(c: Caching.Cache, request: Msg, now: int, outOfRange: Word)
    ensures forall m :: Caching.Get(c, Some(request), now, outOfRange) == Some(m) ||
                        Caching.GetStale(c, Some(request), now, outOfRange) == Some(m) ==>
              var key := CacheKey(Some(request));
              key.Some? && key.value in c.entries && CopyUpToIdAndTtls(m, c.entries[key.value].message)
  {
  }

  lemma HitExplained(s: System, request: Msg, now: int, outOfRange: Word, m: Msg)
    requires EntriesReturned(s)
    requires Caching.Get(s.cache, Some(request), now, outOfRange) == Some(m) ||
             Caching.GetStale(s.cache, Some(request), now, outOfRange) == Some(m)
    ensures exists r :: r in s.returned && ComesFrom(r, request, m)
  {
    HitsCopyEntries(s.cache, request, now, outOfRange);
    var key := CacheKey(Some(request)).value;
    var r :| r in s.returned && StoredFrom(r, key, s.cache.entries[key].message);
    KeysCollideOnlyForSameQuestion(r.request.question[0], request.question[0]);
    assert ComesFrom(r, request, m);
  }

  lemma StoreKeepsEntriesReturned(s: System, id: nat, victim: string)
    requires Sourced(s) && Enabled(s, Store(id, victim))
    ensures EntriesReturned(Apply(s, Store(id, victim)))
  {
    hide CacheKey, Caching.EntryTTL, Caching.Evicts, CopyUpToIdAndTtls;
    var s' := Apply(s, Store(id, victim));
    var request, reply := s.tasks[id].query.request, s.tasks[id].phase.reply;
    forall k | k in s'.cache.entries
      ensures exists r :: r in s'.returned && StoredFrom(r, k, s'.cache.entries[k].message) {
      if k in s.cache.entries && s'.cache.entries[k] == s.cache.entries[k] {
        var r :| r in s.returned && StoredFrom(r, k, s.cache.entries[k].message);
        assert r in s'.returned;
      } else {
        assert StoredFrom(Returned(request, reply.message), k, s'.cache.entries[k].message);
      }
    }
  }

  lemma MoreReturned(s: System, s': System, request: Msg, reply: Reply)
    requires ReplyExplained(s, request, reply) && forall r :: r in s.returned ==> r in s'.returned
    ensures ReplyExplained(s', request, reply)
  {
  }

  lemma StepKeepsSourced(s: System, step: Step)
    requires Sourced(s) && Enabled(s, step)
    ensures Sourced(Apply(s, step))
  {
    hide Caching.Stored, Caching.Get, Caching.GetStale, Limiting.Apply, IsAllowed, SetRcode,
         Pooling.Apply, Pooling.Enabled, ReplyExplained, StoredFrom;
    var s' := Apply(s, step);
    assert forall r :: r in s.returned ==> r in s'.returned;
    if step.Store? {
      StoreKeepsEntriesReturned(s, step.id, step.victim);
    } else {
      forall k | k in s'.cache.entries
        ensures exists r :: r in s'.returned && StoredFrom(r, k, s'.cache.entries[k].message) {
        var r :| r in s.returned && StoredFrom(r, k, s.cache.entries[k].message);
        assert r in s'.returned;
      }
    }
    forall id | id in s'.tasks && (s'.tasks[id].phase.Done? || s'.tasks[id].phase.Storing?)
      ensures ReplyExplained(s', s'.tasks[id].query.request, s'.tasks[id].phase.reply) {
      StepExplains(s, step, id);
    }
  }

  lemma StepExplains(s: System, step: Step, id: nat)
    requires Sourced(s) && Enabled(s, step) && id in Apply(s, step).tasks
    requires Apply(s, step).tasks[id].phase.Done? || Apply(s, step).tasks[id].phase.Storing?
    ensures var t := Apply(s, step).tasks[id]; ReplyExplained(Apply(s, step), t.query.request, t.phase.reply)
  {
    hide Apply, Enabled, ReplyExplained, EntriesReturned;
    if id in s.tasks && (s.tasks[id].phase.Done? || s.tasks[id].phase.Storing?) {
      OldReplyStays(s, step, id);
      MoreReturned(s, Apply(s, step), s.tasks[id].query.request, s.tasks[id].phase.reply);
    } else {
      NewReplyExplained(s, step, id);
    }
  }

  lemma OldReplyStays(s: System, step: Step, id: nat)
    requires Enabled(s, step) && id in s.tasks && (s.tasks[id].phase.Done? || s.tasks[id].phase.Storing?)
    ensures var s' := Apply(s, step);
            && id in s'.tasks && (s'.tasks[id].phase.Done? || s'.tasks[id].phase.Storing?)
            && s'.tasks[id].query == s.tasks[id].query && s'.tasks[id].phase.reply == s.tasks[id].phase.reply
            && forall r :: r in s.returned ==> r in s'.returned
  {
    hide Caching.Stored, Caching.Get, Caching.GetStale, Limiting.Apply, IsAllowed, SetRcode,
         Pooling.Apply, Pooling.Enabled, CacheRuns.Legal;
  }

  lemma NewReplyExplained(s: System, step: Step, id: nat)
    requires EntriesReturned(s) && Enabled(s, step) && id in Apply(s, step).tasks
    requires !(id in s.tasks && (s.tasks[id].phase.Done? || s.tasks[id].phase.Storing?))
    requires Apply(s, step).tasks[id].phase.Done? || Apply(s, step).tasks[id].phase.Storing?
    ensures var t := Apply(s, step).tasks[id]; ReplyExplained(Apply(s, step), t.query.request, t.phase.reply)
  {
    hide Caching.Stored, Caching.Get, Caching.GetStale, Limiting.Apply, IsAllowed, Pooling.Apply, Pooling.Enabled,
         ComesFrom, EntriesReturned, CacheRuns.Legal;
    var s' := Apply(s, step);
    var request, reply := s'.tasks[id].query.request, s'.tasks[id].phase.reply;
    if step.LookUp? || step.LookUpStale? {
      HitExplained(s, request, s.tasks[id].query.start, step.outOfRange, reply.message);
    } else if step.EngineReturns? || step.AskFallback? {
      assert s'.returned == s.returned || Returned(request, reply.message) == s'.returned[|s.returned|];
    }
  }

  /**
   Provenance: in every reachable state, a cache or stale reply is a copy, up to Id and TTLs, of a
   successful untruncated answer the engine or a fallback gave for the same name, type and class;
   so is every cache entry, which no synthesised response therefore ever reaches.
   */
  lemma {:induction false} EveryReplyHasASource(s: System, steps: seq<Step>)
    requires Initial(s) && IsRun(s, steps)
    ensures EntriesReturned(Run(s, steps)) && RepliesExplained(Run(s, steps))
  {
    SourcedAlways(s, steps);
  }

  lemma {:induction false} SourcedAlways(s: System, steps: seq<Step>)
    requires Initial(s) && IsRun(s, steps)
    ensures Sourced(Run(s, steps))
  {
    if steps != [] {
      SourcedAlways(s, steps[..|steps| - 1]);
      StepKeepsSourced(Run(s, steps[..|steps| - 1]), steps[|steps| - 1]);
    }
  }

  // ---------------------------------------------------------------- the filter decides

  /** The filter let the query through. */
  ghost predicate PastFilter(phase: Phase) {
    && !phase.Arrived? && !phase.Admitted?
    && (phase.Done? || phase.Storing? ==> !phase.reply.origin.RateLimited? && !phase.reply.origin.Denied?)
  }

  ghost predicate Past(s: System, id: nat) {
    id in s.tasks && PastFilter(s.tasks[id].phase)
  }

  lemma StepKeepsPast(s: System, step: Step, id: nat)
    requires Enabled(s, step)
    ensures Past(s, id) ==> Past(Apply(s, step), id)
    ensures id in s.tasks ==> id in Apply(s, step).tasks && Apply(s, step).tasks[id].query == s.tasks[id].query
    ensures id in s.tasks && s.tasks[id].phase.Done? ==> Apply(s, step).tasks[id] == s.tasks[id]
  {
  }

  /** What holds of a query after n steps of a run holds at its end. */
  lemma {:induction false} PastForGood(s: System, steps: seq<Step>, n: nat, id: nat)
    requires IsRun(s, steps) && n <= |steps|
    ensures IsRun(s, steps[..n])
    ensures Past(Run(s, steps[..n]), id) ==> Past(Run(s, steps), id)
    ensures id in Run(s, steps[..n]).tasks ==>
              && id in Run(s, steps).tasks
              && Run(s, steps).tasks[id].query == Run(s, steps[..n]).tasks[id].query
              && (Run(s, steps[..n]).tasks[id].phase.Done? ==> Run(s, steps).tasks[id] == Run(s, steps[..n]).tasks[id])
  {
    if n == |steps| {
      assert steps[..n] == steps;
    } else {
      var past := steps[..|steps| - 1];
      assert past[..n] == steps[..n];
      PastForGood(s, past, n, id);
      StepKeepsPast(Run(s, past), steps[|past|], id);
    }
  }

  /** One step of a run, between its prefixes. */
  lemma OneStep(s: System, steps: seq<Step>, n: nat)
    requires IsRun(s, steps) && n < |steps|
    ensures IsRun(s, steps[..n]) && IsRun(s, steps[..n + 1]) && Enabled(Run(s, steps[..n]), steps[n])
    ensures Run(s, steps[..n + 1]) == Apply(Run(s, steps[..n]), steps[n])
  {
    PastForGood(s, steps, n + 1, 0);
    assert steps[..n + 1][..n] == steps[..n];
  }

  lemma {:induction false} PolicyStands(s: System, steps: seq<Step>, m: nat, n: nat)
    requires IsRun(s, steps) && m < n <= |steps| && steps[m].UpdateFilter?
    requires forall j :: m < j < n ==> !steps[j].UpdateFilter?
    ensures IsRun(s, steps[..n]) && Run(s, steps[..n]).policy == steps[m].policy
  {
    hide Caching.Stored, Caching.Get, Caching.GetStale, Limiting.Apply, IsAllowed, SetRcode,
         Pooling.Apply, Pooling.Enabled;
    OneStep(s, steps, n - 1);
    if m < n - 1 {
      PolicyStands(s, steps, m, n - 1);
    }
  }

  /**
   Filter dominance: a query that reads the filter after an update and before the next one is
   denied, with that update's rcode, iff that update denies its name; the cache is not flushed and
   still cannot answer it. A query the update allows is never denied.
   */
  lemma {:induction false} FilterDominates(s: System, steps: seq<Step>, m: nat, n: nat)
    requires IsRun(s, steps) && m < n < |steps| && steps[m].UpdateFilter? && steps[n].ReadFilter?
    requires forall j :: m < j < n ==> !steps[j].UpdateFilter?
    ensures var policy, id := steps[m].policy, steps[n].id;
            id in Run(s, steps).tasks &&
            var t := Run(s, steps).tasks[id];
            if LabelsAllow(policy.allow, policy.deny, t.query.request) then PastFilter(t.phase)
            else t.phase.Done? && t.phase.reply.origin == Denied &&
                 EmptyReply(t.phase.reply.message, t.query.request, if policy.rcode == 0 then 5 else policy.rcode)
  {
    hide Apply, Enabled, LabelsAllow, EmptyReply;
    PolicyStands(s, steps, m, n);
    OneStep(s, steps, n);
    ReadFilterDecides(Run(s, steps[..n]), steps[n].id);
    PastForGood(s, steps, n + 1, steps[n].id);
  }

  /** So a name on the update's deny list is denied, in any letter case and with or without its final dot. */
  lemma {:induction false} DeniedNameIsDenied(s: System, steps: seq<Step>, m: nat, n: nat, name: string)
    requires IsRun(s, steps) && m < n < |steps| && steps[m].UpdateFilter? && steps[n].ReadFilter?
    requires forall j :: m < j < n ==> !steps[j].UpdateFilter?
    requires name in steps[m].policy.deny && IsCore(name) && name[|name| - 1] != '.'
    requires steps[n].id in Run(s, steps).tasks &&
             var questions := Run(s, steps).tasks[steps[n].id].query.request.question;
             questions != [] &&
             (ToLower(questions[0].name) == ToLower(name) || ToLower(questions[0].name) == ToLower(name + "."))
    ensures var t := Run(s, steps).tasks[steps[n].id]; t.phase.Done? && t.phase.reply.origin == Denied
  {
    hide Run, IsRun, LabelsAllow, ToLower, IsCore;
    FilterDominates(s, steps, m, n);
    var policy := steps[m].policy;
    DeniedNameIsRefused(policy.allow, policy.deny, Run(s, steps).tasks[steps[n].id].query.request, name);
  }

  lemma ReadFilterDecides(s: System, id: nat)
    requires Enabled(s, ReadFilter(id))
    ensures id in s.tasks && id in Apply(s, ReadFilter(id)).tasks
    ensures var t, t' := s.tasks[id], Apply(s, ReadFilter(id)).tasks[id];
            && t'.query == t.query
            && if LabelsAllow(s.policy.allow, s.policy.deny, t.query.request) then PastFilter(t'.phase)
               else t'.phase.Done? && t'.phase.reply.origin == Denied &&
                    EmptyReply(t'.phase.reply.message, t.query.request,
                               if s.policy.rcode == 0 then 5 else s.policy.rcode)
  {
    hide IsAllowed, FilterOf, LabelsAllow, NormalizeDomain;
    RequestDecidedByLabels(s.policy.allow, s.policy.deny, s.tasks[id].query.request);
  }

  // ---------------------------------------------------------------- what refused queries leave behind

  /** The query a step is taken for. */
  ghost function Actor(step: Step): Option<nat> {
    match step
    case PoolStep(p) => if p.ClosePool? then None else Some(p.id)
    case LimiterStep(l) => Some(l.call)
    case UpdateFilter(_) => None
    case UpdateFallbacks(_) => None
    case _ => Some(step.id)
  }

  ghost predicate ExchangesArePast(s: System) {
    forall id :: id in s.pool.exchanges ==> Past(s, id)
  }

  lemma {:induction false} OnlyPastQueriesExchange(s: System, steps: seq<Step>)
    requires Initial(s) && IsRun(s, steps)
    ensures ExchangesArePast(Run(s, steps))
  {
    if steps != [] {
      var past, step := steps[..|steps| - 1], steps[|steps| - 1];
      OnlyPastQueriesExchange(s, past);
      forall id ensures Past(Run(s, past), id) ==> Past(Run(s, steps), id) {
        StepKeepsPast(Run(s, past), step, id);
      }
    }
  }

  /** A refused or denied query never changes the cache, the pool, or what was fetched. */
  lemma RefusedQueriesLeaveNoTrace(s: System, steps: seq<Step>, n: nat, id: nat)
    requires Initial(s) && IsRun(s, steps) && n < |steps| && Actor(steps[n]) == Some(id)
    requires id in Run(s, steps).tasks && Run(s, steps).tasks[id].phase.Done?
    requires var origin := Run(s, steps).tasks[id].phase.reply.origin; origin.RateLimited? || origin.Denied?
    ensures IsRun(s, steps[..n]) && IsRun(s, steps[..n + 1])
    ensures var s0, s1 := Run(s, steps[..n]), Run(s, steps[..n + 1]);
            s1.cache == s0.cache && s1.pool == s0.pool && s1.returned == s0.returned
  {
    OneStep(s, steps, n);
    OnlyPastQueriesExchange(s, steps[..n]);
    SourcedAlways(s, steps[..n]);
    RefusalTouchesNothing(Run(s, steps[..n]), steps[n], id);
    PastForGood(s, steps, n + 1, id);
    hide Apply, Enabled, ExchangesArePast;
  }

  lemma RefusalTouchesNothing(s: System, step: Step, id: nat)
    requires Enabled(s, step) && Actor(step) == Some(id) && ExchangesArePast(s) && StoringIsFetched(s)
    ensures var s' := Apply(s, step);
            Past(s', id) || (s'.cache == s.cache && s'.pool == s.pool && s'.returned == s.returned)
  {
  }

  /** The pool's own steps are a run of the pool, so all it keeps it keeps here. */
  lemma {:induction false} PoolKeepsEveryConnection(s: System, steps: seq<Step>)
    requires Initial(s) && IsRun(s, steps)
    ensures Pooling.Inv(Run(s, steps).pool)
  {
    if steps == [] {
      Pooling.EveryConnectionInOnePlace(s.pool, []);
    } else {
      var past, step := steps[..|steps| - 1], steps[|steps| - 1];
      PoolKeepsEveryConnection(s, past);
      hide Caching.Stored, Caching.Get, Caching.GetStale, Limiting.Apply, IsAllowed, SetRcode,
           Pooling.Apply, Pooling.Inv;
      if step.PoolStep? {
        Pooling.StepKeepsInv(Run(s, past).pool, step.step);
      }
    }
  }

  /** Likewise for the limiter: all it keeps under concurrent calls it keeps here. */
  lemma {:induction false} LimiterKeepsItsBounds(s: System, steps: seq<Step>)
    requires Initial(s) && IsRun(s, steps)
    ensures Limiting.Inv(s.limiter, Run(s, steps).limiter)
  {
    hide Caching.Stored, Caching.Get, Caching.GetStale, IsAllowed, SetRcode, Pooling.Apply, Pooling.Initial,
         Limiting.Apply, Limiting.Inv;
    if steps == [] {
      Limiting.InitialInv(s.limiter);
    } else {
      var past, step := steps[..|steps| - 1], steps[|steps| - 1];
      LimiterKeepsItsBounds(s, past);
      if step.LimiterStep? {
        Limiting.StepKeepsInv(s.limiter, Run(s, past).limiter, step.limit);
      }
    }
  }

  // ---------------------------------------------------------------- after Close

  /** A query leaves its exchange only when the exchange is over. */
  ghost predicate ExchangesAwaited(s: System) {
    forall id :: id in s.pool.exchanges ==>
      id in s.tasks && (s.pool.exchanges[id].Done? || s.tasks[id].phase.Exchanging?)
  }

  lemma StepKeepsAwaited(s: System, step: Step)
    requires ExchangesAwaited(s) && Enabled(s, step)
    ensures ExchangesAwaited(Apply(s, step))
    ensures s.pool.pool.closed || step == PoolStep(Pooling.ClosePool) ==> Apply(s, step).pool.pool.closed
  {
    hide Caching.Stored, Caching.Get, Caching.GetStale, IsAllowed, SetRcode, Limiting.Apply, Limiting.Enabled;
    if step.PoolStep? {
      PoolStepMovesOne(s.pool, step.step);
      if s.pool.pool.closed || step.step.ClosePool? {
        Pooling.StepKeepsClosed(s.pool, step.step);
      }
      hide Pooling.Apply;
    }
  }

  lemma PoolStepMovesOne(p: Pooling.System, step: Pooling.Step)
    requires Pooling.Enabled(p, step)
    ensures forall id :: id in Pooling.Apply(p, step).exchanges ==>
              if !step.ClosePool? && id == step.id then step.Begin? || (id in p.exchanges && !p.exchanges[id].Done?)
              else id in p.exchanges && Pooling.Apply(p, step).exchanges[id] == p.exchanges[id]
  {
  }

  lemma {:induction false} AwaitedAlongRun(s: System, steps: seq<Step>)
    requires Initial(s) && IsRun(s, steps)
    ensures ExchangesAwaited(Run(s, steps))
    ensures PoolStep(Pooling.ClosePool) in steps ==> Run(s, steps).pool.pool.closed
  {
    hide Apply, Enabled;
    if steps != [] {
      AwaitedAlongRun(s, steps[..|steps| - 1]);
      StepKeepsAwaited(Run(s, steps[..|steps| - 1]), steps[|steps| - 1]);
    }
  }

  /**
   No leak: once the pool has been closed and every query has its reply, every connection ever
   dialled has been closed exactly once.
   */
  lemma {:induction false} AfterCloseEverythingIsClosed(s: System, steps: seq<Step>)
    requires Initial(s) && IsRun(s, steps) && PoolStep(Pooling.ClosePool) in steps
    requires forall id :: id in Run(s, steps).tasks ==> Run(s, steps).tasks[id].phase.Done?
    ensures Run(s, steps).pool.closed == multiset(Run(s, steps).pool.dialled.Keys)
  {
    hide Initial, IsRun, Run, Pooling.Inv;
    AwaitedAlongRun(s, steps);
    PoolKeepsEveryConnection(s, steps);
    Pooling.ClosedAndQuietMeansAllClosed(Run(s, steps).pool);
  }

  // ---------------------------------------------------------------- the cache

  /** The stores of a run, in the order they took the cache's lock. */
  ghost function StoreCalls(s: System, steps: seq<Step>): seq<CacheRuns.StoreCall>
    requires IsRun(s, steps)
    decreases |steps|
  {
    if steps == [] then [] else
      var past, last := steps[..|steps| - 1], steps[|steps| - 1];
      StoreCalls(s, past) +
      if !last.Store? then [] else
        var t := Run(s, past).tasks[last.id];
        [StoreCallOf(t.query, t.phase.reply, last.victim)]
  }

  /** The cache is a run of its own over those stores, so all that holds of its runs holds here. */
  lemma {:induction false} CacheIsARun(s: System, steps: seq<Step>)
    requires IsRun(s, steps)
    ensures Run(s, steps).cache == CacheRuns.Run(s.cache, StoreCalls(s, steps))
    ensures CacheRuns.LegalVictims(s.cache, StoreCalls(s, steps))
  {
    hide Caching.Stored, Caching.Get, Caching.GetStale, Limiting.Apply, IsAllowed, SetRcode,
         Pooling.Apply, Pooling.Enabled, Limiting.Enabled, CacheRuns.LegalVictims, CacheRuns.Legal, CacheRuns.Run;
    if steps == [] {
      NoStoresYet(s.cache);
    } else {
      var past, last := steps[..|steps| - 1], steps[|steps| - 1];
      CacheIsARun(s, past);
      if last.Store? {
        var t := Run(s, past).tasks[last.id];
        CacheRuns.OneMoreCall(s.cache, StoreCalls(s, past), StoreCallOf(t.query, t.phase.reply, last.victim));
      } else {
        assert StoreCalls(s, steps) == StoreCalls(s, past);
      }
    }
  }

  lemma NoStoresYet(c: Caching.Cache)
    ensures CacheRuns.Run(c, []) == c && CacheRuns.LegalVictims(c, [])
  {
  }

  /** In every interleaving the cache keeps its cap. */
  lemma {:induction false} CacheKeepsItsCap(s: System, steps: seq<Step>)
    requires Initial(s) && IsRun(s, steps) && 0 < s.cache.maxEntries
    ensures |Run(s, steps).cache.entries| <= s.cache.maxEntries
  {
    hide Run, IsRun, StoreCalls;
    CacheIsARun(s, steps);
    CacheRuns.NeverMoreThanMaxEntries(s.cache, StoreCalls(s, steps));
  }

  /** In every interleaving a hit, fresh or stale, is the last cacheable write to its key so far. */
  lemma {:induction false} HitsAreLastWrites(s: System, steps: seq<Step>, request: Msg, now: int, outOfRange: Word)
    requires Initial(s) && IsRun(s, steps)
    ensures var c, u := Run(s, steps).cache, CacheRuns.Unbounded(s.cache, StoreCalls(s, steps));
            && (var got := Caching.Get(c, Some(request), now, outOfRange);
                got.Some? ==> got == Caching.Get(u, Some(request), now, outOfRange))
            && (var got := Caching.GetStale(c, Some(request), now, outOfRange);
                got.Some? ==> got == Caching.GetStale(u, Some(request), now, outOfRange))
  {
    hide Run, IsRun, StoreCalls;
    CacheIsARun(s, steps);
    CacheRuns.EveryHitIsAnUnboundedHit(s.cache, StoreCalls(s, steps), Some(request), now, outOfRange);
  }

  // ---------------------------------------------------------------- the global rate limit

  /** Past the limiter: neither waiting for it nor refused by it. */
  predicate PastLimiter(phase: Phase) {
    !phase.Arrived? && !(phase.Done? && phase.reply.origin.RateLimited?)
  }

  function Served(s: System): set<nat> {
    set id | id in s.tasks && PastLimiter(s.tasks[id].phase)
  }

  ghost predicate ServedAdmitted(s: System) {
    forall id :: id in Served(s) ==>
      id in s.limiter.calls && s.limiter.calls[id].phase.Done? && s.limiter.calls[id].phase.admitted
  }

  lemma LimiterStepKeepsDone(l: Limiting.System, step: Limiting.Step)
    requires Limiting.Enabled(l, step)
    ensures forall c :: c in l.calls && l.calls[c].phase.Done? ==>
              c in Limiting.Apply(l, step).calls && Limiting.Apply(l, step).calls[c] == l.calls[c]
  {
    hide Take, Limiting.LookUpShape;
  }

  lemma StepKeepsServedAdmitted(s: System, step: Step)
    requires ServedAdmitted(s) && Enabled(s, step)
    ensures ServedAdmitted(Apply(s, step))
  {
    hide Caching.Stored, Caching.Get, Caching.GetStale, IsAllowed, SetRcode, Pooling.Apply, Pooling.Enabled,
         CacheRuns.Legal;
    if step.LimiterStep? {
      LimiterStepKeepsDone(s.limiter, step.limit);
    }
    hide Limiting.Apply, Limiting.Enabled;
  }

  lemma {:induction false} ServedAdmittedAlongRun(s: System, steps: seq<Step>)
    requires Initial(s) && IsRun(s, steps)
    ensures ServedAdmitted(Run(s, steps))
  {
    hide Apply, Enabled;
    if steps != [] {
      ServedAdmittedAlongRun(s, steps[..|steps| - 1]);
      StepKeepsServedAdmitted(Run(s, steps[..|steps| - 1]), steps[|steps| - 1]);
    }
  }

  /**
   In every interleaving the queries not refused by the limiter, or still before it, are at most the
   global burst plus the rate times the forward steps of the timestamps at the global bucket.
   */
  lemma {:induction false} ServedQueriesKeepGlobalBound(s: System, steps: seq<Step>)
    requires Initial(s) && IsRun(s, steps) && s.limiter.global.Some?
    ensures var g, end := s.limiter.global.value, Run(s, steps);
            |Served(end)| as real
            <= g.burst + Accrued(g.rate, ForwardSteps(Limiting.TimesAt(end.limiter.log, Limiting.AtGlobal)))
  {
    hide Run, IsRun, Limiting.Inv;
    var end := Run(s, steps);
    ServedAdmittedAlongRun(s, steps);
    LimiterKeepsItsBounds(s, steps);
    Limiting.AdmittedWithinGlobalBound(s.limiter, end.limiter);
    Smaller(Served(end), Limiting.AdmittedCalls(end.limiter));
  }
}
