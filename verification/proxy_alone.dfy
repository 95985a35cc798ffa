/**
 The two views of a query agree: its own steps in ProxyRuns, with no other step in between, give the
 limiter, the reply, the pool and the cache that Proxies promises for the query handler.
 */
module ProxyAlone {
  import opened Wrappers
  import opened Messages
  import opened DomainFilters
  import opened Proxies
  import opened ProxyRuns
  import RequestLimiters
  import Limiting = LimiterInterleavings

  lemma OneMoreStep(s: System, steps: seq<Step>, step: Step)
    requires IsRun(s, steps) && Enabled(Run(s, steps), step)
    ensures IsRun(s, steps + [step]) && Run(s, steps + [step]) == Apply(Run(s, steps), step)
  {
  }

  lemma NoStepsYet(s: System)
    ensures IsRun(s, []) && Run(s, []) == s
  {
  }

  /** The later steps are all taken for the query. */
  ghost predicate OwnSteps(past: seq<Step>, steps: seq<Step>, id: nat) {
    past <= steps && forall i :: |past| <= i < |steps| ==> Actor(steps[i]) == Some(id)
  }

  lemma OwnStepsFollow(past: seq<Step>, middle: seq<Step>, steps: seq<Step>, id: nat)
    requires OwnSteps(past, middle, id) && OwnSteps(middle, steps, id)
    ensures OwnSteps(past, steps, id)
  {
  }

  lemma OneOwnStep(past: seq<Step>, step: Step, id: nat)
    requires Actor(step) == Some(id)
    ensures OwnSteps(past, past + [step], id)
  {
  }

  /** Only the query's phase, the pool and what was fetched have changed. */
  ghost predicate Undisturbed(s: System, s': System, id: nat) {
    && OnlyTask(s, s', id)
    && s' == s.(pool := s'.pool, returned := s'.returned, tasks := s'.tasks)
  }

  ghost predicate OnlyTask(s: System, s': System, id: nat) {
    && id in s.tasks && id in s'.tasks
    && s'.tasks == s.tasks[id := s.tasks[id].(phase := s'.tasks[id].phase)]
  }

  lemma {:induction false} PoolStepsAlone(s: System, past: seq<Step>, id: nat, moves: seq<Pooling.Step>)
    returns (steps: seq<Step>)
    requires IsRun(s, past) && In(Run(s, past), id, Exchanging)
    requires Pooling.IsRun(Run(s, past).pool, moves)
    requires Pooling.OnlyOf(moves, id, Run(s, past).tasks[id].query.network)
    ensures IsRun(s, steps) && OwnSteps(past, steps, id)
    ensures Run(s, steps) == Run(s, past).(pool := Pooling.Run(Run(s, past).pool, moves))
  {
    hide IsRun, Run, Pooling.Apply, Pooling.Enabled;
    if moves == [] {
      steps := past;
    } else {
      steps := PoolStepsAlone(s, past, id, moves[..|moves| - 1]);
      OneMoreStep(s, steps, PoolStep(moves[|moves| - 1]));
      steps := steps + [PoolStep(moves[|moves| - 1])];
    }
  }

  /** From the cache miss to the engine's answer. */
  lemma {:induction false} ExchangeAlone(s: System, past: seq<Step>, id: nat, world: World) returns (steps: seq<Step>)
    requires IsRun(s, past) && In(Run(s, past), id, Exchanging) && id !in Run(s, past).pool.exchanges
    requires world.dialled.Some? ==> world.dialled.value !in Run(s, past).pool.dialled
    ensures IsRun(s, steps) && OwnSteps(past, steps, id) && Undisturbed(Run(s, past), Run(s, steps), id)
    ensures var s0, end := Run(s, past), Run(s, steps);
            var q := s0.tasks[id].query;
            var (p, engine, _) := Pooling.Exchanged(s0.pool.pool, Pooling.NameOf(q.network), Some(q.request),
                                                    world.dialled, world.engine);
            && end.pool.pool == p && end.pool.exchanges.Keys == s0.pool.exchanges.Keys + {id}
            && end.pool.dialled.Keys <=
               s0.pool.dialled.Keys + (if world.dialled.Some? then {world.dialled.value} else {})
            && end.tasks[id].phase == if engine.Some? then Storing(Reply(Engine, engine.value)) else Failed
  {
    hide IsRun, Run, Pooling.IsRun, Pooling.Run, Pooling.OnlyOf;
    var s0 := Run(s, past);
    var q := s0.tasks[id].query;
    var moves := Pooling.ExchangedIsARun(s0.pool, id, q.network, q.request, world.dialled, world.engine);
    steps := PoolStepsAlone(s, past, id, moves);
    var answer := Pooling.Exchanged(s0.pool.pool, Pooling.NameOf(q.network), Some(q.request),
                                    world.dialled, world.engine).1;
    OneMoreStep(s, steps, EngineReturns(id, answer));
    steps := steps + [EngineReturns(id, answer)];
  }

  /** Asking the fallbacks from number i on. */
  lemma {:induction false} FallbacksAlone(s: System, past: seq<Step>, id: nat, upstreams: seq<string>, i: nat,
                                          answers: (nat, string) -> Option<Msg>) returns (steps: seq<Step>)
    requires IsRun(s, past) && i <= |upstreams| && In(Run(s, past), id, Asking(upstreams[i..]))
    ensures IsRun(s, steps) && OwnSteps(past, steps, id) && Undisturbed(Run(s, past), Run(s, steps), id)
    ensures Run(s, steps).pool == Run(s, past).pool
    ensures var first := FirstAnswer(upstreams, answers, i);
            Run(s, steps).tasks[id].phase == Storing(
              if first.Some? then Reply(Fallback, first.value)
              else Reply(Engine, SetRcode(Run(s, past).tasks[id].query.request, RCODE_SERVER_FAILURE)))
    decreases |upstreams| - i
  {
    hide IsRun, Run, SetRcode;
    var answer := if i < |upstreams| then answers(i, upstreams[i]) else None;
    OneMoreStep(s, past, AskFallback(id, answer));
    steps := past + [AskFallback(id, answer)];
    if i < |upstreams| && answer.None? {
      assert upstreams[i..][1..] == upstreams[i + 1..];
      steps := FallbacksAlone(s, steps, id, upstreams, i + 1, answers);
    }
  }

  /** From the failed exchange on. */
  lemma {:induction false} FailureAlone(s: System, past: seq<Step>, id: nat, world: World) returns (steps: seq<Step>)
    requires IsRun(s, past) && In(Run(s, past), id, Failed)
    ensures IsRun(s, steps) && OwnSteps(past, steps, id) && Undisturbed(Run(s, past), Run(s, steps), id)
    ensures Run(s, steps).pool == Run(s, past).pool
    ensures var s0 := Run(s, past);
            var q := s0.tasks[id].query;
            var stale := Caching.GetStale(s0.cache, Some(q.request), q.start, world.outOfRange);
            var fallback := FirstAnswer(s0.fallbacks, world.fallbacks, 0);
            Run(s, steps).tasks[id].phase ==
            if stale.Some? then Done(Reply(StaleHit, stale.value))
            else if fallback.Some? then Storing(Reply(Fallback, fallback.value))
            else Storing(Reply(Engine, SetRcode(q.request, RCODE_SERVER_FAILURE)))
  {
    hide IsRun, Run, Caching.GetStale, SetRcode, FirstAnswer;
    OneMoreStep(s, past, LookUpStale(id, world.outOfRange));
    steps := past + [LookUpStale(id, world.outOfRange)];
    if In(Run(s, steps), id, StaleMissed) {
      OneMoreStep(s, steps, ReadFallbacks(id));
      steps := steps + [ReadFallbacks(id)];
      var upstreams := Run(s, past).fallbacks;
      assert upstreams[0..] == upstreams;
      steps := FallbacksAlone(s, steps, id, upstreams, 0, world.fallbacks);
    }
  }

  /** From a passed filter to the query's store, if there is one. */
  lemma {:induction false} ResolvedAlone(s: System, past: seq<Step>, id: nat, world: World) returns (steps: seq<Step>)
    requires IsRun(s, past) && In(Run(s, past), id, Passed) && id !in Run(s, past).pool.exchanges
    requires world.dialled.Some? ==> world.dialled.value !in Run(s, past).pool.dialled
    ensures IsRun(s, steps) && OwnSteps(past, steps, id) && Undisturbed(Run(s, past), Run(s, steps), id)
    ensures var s0, end := Run(s, past), Run(s, steps);
            var q := s0.tasks[id].query;
            var (reply, pool, store) := Resolve(s0.cache, s0.pool.pool, s0.fallbacks, q.request,
                                                Pooling.NameOf(q.network), q.start, world);
            end.tasks[id].phase == (if store then Storing(reply) else Done(reply)) && end.pool.pool == pool
  {
    hide IsRun, Run, OwnSteps, Caching.Get, Caching.GetStale, SetRcode, FirstAnswer, Pooling.Exchanged;
    OneMoreStep(s, past, LookUp(id, world.outOfRange));
    steps := past + [LookUp(id, world.outOfRange)];
    assert OwnSteps(past, steps, id) by { OneOwnStep(past, LookUp(id, world.outOfRange), id); }
    if In(Run(s, steps), id, Exchanging) {
      var middle := steps;
      steps := ExchangeAlone(s, middle, id, world);
      OwnStepsFollow(past, middle, steps, id);
      if In(Run(s, steps), id, Failed) {
        middle := steps;
        steps := FailureAlone(s, middle, id, world);
        OwnStepsFollow(past, middle, steps, id);
      }
    }
  }

  /** An admitted query alone: its own steps end with exactly what Answered says. */
  lemma {:induction false} AnsweredAlone(s: System, past: seq<Step>, id: nat, world: World, victim: string)
    returns (steps: seq<Step>)
    requires IsRun(s, past) && In(Run(s, past), id, Admitted) && CanAnswer(Run(s, past), id, world, victim)
    ensures IsRun(s, steps) && OwnSteps(past, steps, id) && OnlyTask(Run(s, past), Run(s, steps), id)
    ensures var s0, end := Run(s, past), Run(s, steps);
            var (reply, pool, store) := AnswerTo(s0, id, world);
            var q := s0.tasks[id].query;
            && end.tasks[id].phase == Done(reply) && end.pool.pool == pool
            && end.cache == CacheAfter(s0.cache, q.request, reply, store, q.start, victim)
            && (end.limiter, end.policy, end.fallbacks) == (s0.limiter, s0.policy, s0.fallbacks)
  {
    hide IsRun, Run, OwnSteps, Resolve, Caching.Stored, SetRcode, IsAllowed, FilterOf, Caching.LegalVictim;
    OneMoreStep(s, past, ReadFilter(id));
    steps := past + [ReadFilter(id)];
    assert OwnSteps(past, steps, id) by { OneOwnStep(past, ReadFilter(id), id); }
    if In(Run(s, steps), id, Passed) {
      var middle := steps;
      steps := ResolvedAlone(s, middle, id, world);
      OwnStepsFollow(past, middle, steps, id);
      if Run(s, steps).tasks[id].phase.Storing? {
        middle := steps;
        OneMoreStep(s, middle, Store(id, victim));
        steps := middle + [Store(id, victim)];
        OneOwnStep(middle, Store(id, victim), id);
        OwnStepsFollow(past, middle, steps, id);
      }
    }
  }

  /** What Answered gives the query in this state. */
  ghost function AnswerTo(s: System, id: nat, world: World): (Reply, Pooling.Pool, bool)
    requires id in s.tasks
  {
    var q := s.tasks[id].query;
    Answered(FilterOf(s.policy.allow, s.policy.deny), RcodeOr(s.policy.rcode), s.cache, s.pool.pool, s.fallbacks,
             q.request, Pooling.NameOf(q.network), q.start, world)
  }

  /** The query has no exchange yet, a dialled connection is a new one, and the victim is one the scan may choose. */
  ghost predicate CanAnswer(s: System, id: nat, world: World, victim: string) {
    && id in s.tasks && id !in s.pool.exchanges && (world.dialled.Some? ==> world.dialled.value !in s.pool.dialled)
    && var (reply, _, store) := AnswerTo(s, id, world);
       var q := s.tasks[id].query;
       (store ==> Caching.LegalVictim(s.cache, Some(q.request), Some(reply.message), q.start, victim))
  }

  /** From any state in which it is admitted, a query alone gets exactly what Answered says. */
  lemma {:induction false} AloneIsAnswered(s: System, id: nat, world: World, victim: string) returns (steps: seq<Step>)
    requires In(s, id, Admitted) && CanAnswer(s, id, world, victim)
    ensures IsRun(s, steps) && OwnSteps([], steps, id) && OnlyTask(s, Run(s, steps), id)
    ensures var end := Run(s, steps);
            var (reply, pool, store) := AnswerTo(s, id, world);
            var q := s.tasks[id].query;
            && end.tasks[id].phase == Done(reply) && end.pool.pool == pool
            && end.cache == CacheAfter(s.cache, q.request, reply, store, q.start, victim)
  {
    hide IsRun, Run, AnswerTo, CacheAfter, CanAnswer;
    NoStepsYet(s);
    steps := AnsweredAlone(s, [], id, world, victim);
  }

  // ---------------------------------------------------------------- from the query's arrival

  lemma {:induction false} LimiterStepsAlone(s: System, past: seq<Step>, id: nat, moves: seq<Limiting.Step>)
    returns (steps: seq<Step>)
    requires IsRun(s, past) && Limiting.IsRun(Run(s, past).limiter, moves)
    requires forall i :: 0 <= i < |moves| ==> moves[i].call == id && !moves[i].Begin?
    ensures IsRun(s, steps) && OwnSteps(past, steps, id)
    ensures Run(s, steps) == Run(s, past).(limiter := Limiting.Run(Run(s, past).limiter, moves))
  {
    hide IsRun, Run, Limiting.Apply, Limiting.Enabled;
    if moves == [] {
      steps := past;
    } else {
      steps := LimiterStepsAlone(s, past, id, moves[..|moves| - 1]);
      OneMoreStep(s, steps, LimiterStep(moves[|moves| - 1]));
      steps := steps + [LimiterStep(moves[|moves| - 1])];
    }
  }

  /** What Admit gives the query in this state. */
  ghost function AdmitNow(s: System, id: nat): (RequestLimiters.Limiter, RequestLimiters.Verdict)
    requires id in s.tasks
  {
    RequestLimiters.Admit(Limiting.LimiterOf(s.limiter), s.tasks[id].query.source, s.tasks[id].query.start)
  }

  /** An arrived query alone passes the limiter if and only if Admit admits it. */
  lemma {:induction false} AdmittedAlone(s: System, past: seq<Step>, id: nat, bucket: nat) returns (steps: seq<Step>)
    requires Initial(s) && IsRun(s, past) && In(Run(s, past), id, Arrived)
    requires var l := Run(s, past).limiter; id !in l.calls && bucket !in l.buckets && bucket !in l.births
    ensures IsRun(s, steps) && OwnSteps(past, steps, id) && OnlyTask(Run(s, past), Run(s, steps), id)
    ensures var s0, end := Run(s, past), Run(s, steps);
            var (l, verdict) := AdmitNow(s0, id);
            && end == s0.(limiter := end.limiter, tasks := end.tasks) && Limiting.LimiterOf(end.limiter) == l
            && end.limiter.calls.Keys == s0.limiter.calls.Keys + {id}
            && end.limiter.buckets.Keys <= s0.limiter.buckets.Keys + {bucket}
            && end.limiter.births.Keys <= s0.limiter.births.Keys + {bucket}
            && end.tasks[id].phase ==
               if verdict.Admits() then Admitted
               else Done(Reply(RateLimited, SetRcode(s0.tasks[id].query.request, RCODE_REFUSED)))
  {
    hide IsRun, Run, Limiting.Inv, Limiting.IsRun, Limiting.Run, RequestLimiters.Admit, Limiting.LimiterOf, SetRcode;
    var s0 := Run(s, past);
    var q := s0.tasks[id].query;
    LimiterKeepsItsBounds(s, past);
    var begin := Limiting.Begin(id, q.source, q.start);
    OneMoreStep(s, past, LimiterStep(begin));
    steps := past + [LimiterStep(begin)];
    var l1 := Run(s, steps).limiter;
    assert Limiting.LimiterOf(l1) == Limiting.LimiterOf(s0.limiter) by { SameLimiter(l1, s0.limiter); }
    Limiting.StepKeepsInv(s.limiter, s0.limiter, begin);
    var moves := Limiting.AloneIsAdmitFrom(s.limiter, l1, id, bucket);
    steps := LimiterStepsAlone(s, steps, id, moves);
    OneMoreStep(s, steps, Judge(id));
    steps := steps + [Judge(id)];
  }

  lemma SameLimiter(a: Limiting.System, b: Limiting.System)
    requires (a.global, a.shape, a.buckets) == (b.global, b.shape, b.buckets)
    ensures Limiting.LimiterOf(a) == Limiting.LimiterOf(b)
  {
  }

  /**
   A whole query alone, from its arrival: the limiter, the reply, the pool and the cache are those
   the query handler promises.
   */
  lemma {:induction false} AloneIsHandled(
    s: System, past: seq<Step>, id: nat, bucket: nat, world: World, victim: string)
    returns (steps: seq<Step>)
    requires Initial(s) && IsRun(s, past) && In(Run(s, past), id, Arrived)
    requires var l := Run(s, past).limiter; id !in l.calls && bucket !in l.buckets && bucket !in l.births
    requires CanAnswer(Run(s, past), id, world, victim)
    ensures IsRun(s, steps) && OwnSteps(past, steps, id) && OnlyTask(Run(s, past), Run(s, steps), id)
    ensures var s0, end := Run(s, past), Run(s, steps);
            var q := s0.tasks[id].query;
            var (l, verdict) := AdmitNow(s0, id);
            && Limiting.LimiterOf(end.limiter) == l && end.limiter.calls.Keys == s0.limiter.calls.Keys + {id}
            && (end.policy, end.fallbacks) == (s0.policy, s0.fallbacks)
            && if !verdict.Admits()
               then end.tasks[id].phase == Done(Reply(RateLimited, SetRcode(q.request, RCODE_REFUSED)))
                    && end.cache == s0.cache && end.pool == s0.pool
               else var (reply, pool, store) := AnswerTo(s0, id, world);
                    && end.tasks[id].phase == Done(reply) && end.pool.pool == pool
                    && end.cache == CacheAfter(s0.cache, q.request, reply, store, q.start, victim)
  {
    hide IsRun, Run, Limiting.LimiterOf, RequestLimiters.Admit, Answered, CacheAfter, SetRcode, Caching.LegalVictim;
    steps := AdmittedAlone(s, past, id, bucket);
    if In(Run(s, steps), id, Admitted) {
      steps := AnsweredAlone(s, steps, id, world, victim);
    }
  }
}
