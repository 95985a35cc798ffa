/**
 The query handler of pkg/proxy/proxy.go, composed of the limiter, the filter, the cache and the
 pool. What the network returns (a dialled connection, the engine's answer, a fallback's answer)
 is a parameter.
 */
module Proxies {
  import opened Wrappers
  import opened Messages
  import opened DomainFilters
  import Limiting = RequestLimiters
  import Caching = ResponseCaches
  import Pooling = ConnPools

  /** Where a reply came from. A synthesised SERVFAIL is reported as the engine's. */
  datatype Origin = RateLimited | Denied | CacheHit | StaleHit | Fallback | Engine

  datatype Reply = Reply(origin: Origin, message: Msg)

  /** One query event; the timestamps and texts it also carries are left out. */
  datatype Event = Event(origin: Origin, rcode: nat, domain: string)

  /** What the outside world does during one query; fallbacks(i, u) answers the i-th fallback asked, u. */
  datatype World = World(
    dialled: Option<Pooling.Conn>, engine: Option<Msg>,
    fallbacks: (nat, string) -> Option<Msg>, outOfRange: Word)

  function RcodeOr(rcode: nat): nat {
    if rcode == 0 then RCODE_REFUSED else rcode
  }

  /** The first fallback that answers, asked in order. */
  function FirstAnswer(upstreams: seq<string>, answers: (nat, string) -> Option<Msg>, i: nat): Option<Msg>
    decreases |upstreams| - i
  {
    if |upstreams| <= i then None
    else if answers(i, upstreams[i]).Some? then answers(i, upstreams[i])
    else FirstAnswer(upstreams, answers, i + 1)
  }

  /** Steps after the filter: the reply, the pool, and whether the reply is offered to the cache. */
  function Resolve(c: Caching.Cache, p: Pooling.Pool, fallbacks: seq<string>, request: Msg, network: string, start: int,
                   world: World): (Reply, Pooling.Pool, bool)
  {
    var hit := Caching.Get(c, Some(request), start, world.outOfRange);
    var (asked, engine, _) := Pooling.Exchanged(p, network, Some(request), world.dialled, world.engine);
    var stale := Caching.GetStale(c, Some(request), start, world.outOfRange);
    var fallback := FirstAnswer(fallbacks, world.fallbacks, 0);
    if hit.Some? then (Reply(CacheHit, hit.value), p, false)
    else if engine.Some? then (Reply(Engine, engine.value), asked, true)
    else if stale.Some? then (Reply(StaleHit, stale.value), asked, false)
    else if fallback.Some? then (Reply(Fallback, fallback.value), asked, true)
    else (Reply(Engine, SetRcode(request, RCODE_SERVER_FAILURE)), asked, true)
  }

  /** Steps after admission. */
  function Answered(filter: Option<DomainFilter>, rcode: nat, c: Caching.Cache, p: Pooling.Pool, fallbacks: seq<string>,
                    request: Msg, network: string, start: int, world: World): (Reply, Pooling.Pool, bool)
  {
    if !IsAllowed(filter, NormalizeDomain(Some(request))) then (Reply(Denied, SetRcode(request, rcode)), p, false)
    else Resolve(c, p, fallbacks, request, network, start, world)
  }

  function CacheAfter(c: Caching.Cache, request: Msg, reply: Reply, store: bool, start: int, victim: string)
    : Caching.Cache
  {
    if store then Caching.Stored(c, Some(request), Some(reply.message), start, victim) else c
  }

  /** The name of the first question without one final dot. */
  function ShownName(request: Msg): string {
    if request.question == [] then "" else
      var name := request.question[0].name;
      if name != "" && name[|name| - 1] == '.' then name[..|name| - 1] else name
  }

  /** A query is denied exactly when the labels refuse it, and the reply is then empty, with the given rcode. */
  lemma DeniedIffLabelsRefuse(
    filter: Option<DomainFilter>, allow: seq<string>, deny: seq<string>, rcode: nat, c: Caching.Cache,
    p: Pooling.Pool, fallbacks: seq<string>, request: Msg, network: string, start: int, world: World)
    requires filter == FilterOf(allow, deny)
    ensures var reply := Answered(filter, rcode, c, p, fallbacks, request, network, start, world).0;
            && (reply.origin == Denied <==> !LabelsAllow(allow, deny, request))
            && (reply.origin == Denied ==> EmptyReply(reply.message, request, rcode))
  {
    hide IsAllowed, FilterOf, LabelsAllow, NormalizeDomain;
    RequestDecidedByLabels(allow, deny, request);
  }

  /**
   The order of the sources: a fresh hit is always used; the engine's answer before any stale one; a
   stale one before the fallbacks; the first fallback that answers; and SERVFAIL only when all fail.
   Only fetched answers and the SERVFAIL are offered to the cache.
   */
  lemma SourcesInOrder(
    c: Caching.Cache, p: Pooling.Pool, fallbacks: seq<string>, request: Msg, network: string, start: int, world: World)
    ensures var (reply, pool, store) := Resolve(c, p, fallbacks, request, network, start, world);
            var hit := Caching.Get(c, Some(request), start, world.outOfRange);
            var (asked, engine, _) := Pooling.Exchanged(p, network, Some(request), world.dialled, world.engine);
            var stale := Caching.GetStale(c, Some(request), start, world.outOfRange);
            && (reply.origin == CacheHit <==> hit.Some?) && (hit.Some? ==> reply.message == hit.value && pool == p)
            && (hit.None? ==> pool == asked)
            && (reply.origin == StaleHit <==> hit.None? && engine.None? && stale.Some?)
            && (reply.origin == StaleHit ==> reply.message == stale.value)
            && (reply.origin == Fallback <==>
                  hit.None? && engine.None? && stale.None? &&
                  exists i :: 0 <= i < |fallbacks| && world.fallbacks(i, fallbacks[i]).Some?)
            && (reply.origin == Fallback ==>
                  exists i :: 0 <= i < |fallbacks| && world.fallbacks(i, fallbacks[i]) == Some(reply.message) &&
                    forall j :: 0 <= j < i ==> world.fallbacks(j, fallbacks[j]).None?)
            && (hit.None? && engine.Some? ==> reply == Reply(Engine, engine.value))
            && (reply.origin == Engine && engine.None? ==> EmptyReply(reply.message, request, 2))
            && (store <==> reply.origin == Engine || reply.origin == Fallback)
  {
    FirstThatAnswers(fallbacks, world.fallbacks, 0);
    hide FirstAnswer, Caching.Get, Caching.GetStale, Pooling.Exchanged;
  }

  lemma {:induction false} FirstThatAnswers(upstreams: seq<string>, answers: (nat, string) -> Option<Msg>, i: nat)
    ensures FirstAnswer(upstreams, answers, i).Some? <==>
            exists k :: i <= k < |upstreams| && answers(k, upstreams[k]).Some?
    ensures FirstAnswer(upstreams, answers, i).Some? ==>
              exists k :: i <= k < |upstreams| && answers(k, upstreams[k]) == FirstAnswer(upstreams, answers, i) &&
                forall j :: i <= j < k ==> answers(j, upstreams[j]).None?
    decreases |upstreams| - i
  {
    if i < |upstreams| && answers(i, upstreams[i]).None? {
      FirstThatAnswers(upstreams, answers, i + 1);
    }
  }

  class Proxy {
    const limiter: Limiting.RequestLimiter
    const cache: Caching.ResponseCache
    const pool: Pooling.EngineConnPool
    const eventCapacity: nat
    var filter: Option<DomainFilter>
    var filterRcode: nat
    var fallbackUpstreams: seq<string>
    var events: seq<Event>
    var dropped: nat

    ghost predicate Valid()
      reads this, limiter, limiter.Repr, cache, pool
    {
      && limiter.Valid() && cache.Valid() && pool.Valid()
      && this !in limiter.Repr && cache !in limiter.Repr && pool !in limiter.Repr && filterRcode != 0
    }

    constructor (limiter: Limiting.RequestLimiter, cache: Caching.ResponseCache, pool: Pooling.EngineConnPool,
                 allow: seq<string>, deny: seq<string>, rcode: nat, fallbacks: seq<string>, eventCapacity: nat)
      requires limiter.Valid() && cache.Valid() && pool.Valid()
      requires cache !in limiter.Repr && pool !in limiter.Repr
      ensures Valid() && this.limiter == limiter && this.cache == cache && this.pool == pool
      ensures filter == FilterOf(allow, deny) && filterRcode == (if rcode == 0 then 5 else rcode)
      ensures fallbackUpstreams == fallbacks
      ensures events == [] && dropped == 0 && this.eventCapacity == eventCapacity
    {
      var f := NewDomainFilter(allow, deny);
      this.limiter, this.cache, this.pool := limiter, cache, pool;
      filter, filterRcode, fallbackUpstreams := f, RcodeOr(rcode), fallbacks;
      events, dropped, this.eventCapacity := [], 0, eventCapacity;
    }

    /** Replaces filter and rcode together. */
    method UpdateFilter(allow: seq<string>, deny: seq<string>, rcode: nat)
      modifies this`filter, this`filterRcode
      ensures filter == FilterOf(allow, deny) && filterRcode == if rcode == 0 then 5 else rcode
    {
      filter := NewDomainFilter(allow, deny);
      filterRcode := if rcode == 0 then RCODE_REFUSED else rcode;
    }

    method UpdateFallbackUpstreams(upstreams: seq<string>)
      modifies this`fallbackUpstreams
      ensures fallbackUpstreams == upstreams
    {
      fallbackUpstreams := upstreams;
    }

    /** A full channel drops the event and counts it. */
    method PublishEvent(event: Event)
      modifies this`events, this`dropped
      ensures |events| + dropped == old(|events| + dropped) + 1
      ensures if old(|events|) < eventCapacity then events == old(events) + [event] else events == old(events)
    {
      if |events| < eventCapacity {
        events := events + [event];
      } else {
        dropped := dropped + 1;
      }
    }

    method TryFallbackUpstreams(answers: (nat, string) -> Option<Msg>) returns (response: Option<Msg>)
      ensures response == FirstAnswer(fallbackUpstreams, answers, 0)
    {
      var upstreams := fallbackUpstreams;
      for i := 0 to |upstreams|
        invariant FirstAnswer(upstreams, answers, 0) == FirstAnswer(upstreams, answers, i)
      {
        response := answers(i, upstreams[i]);
        if response.Some? {
          return;
        }
      }
      return None;
    }

    method HandleQuery(request: Msg, source: string, network: string, start: int, world: World)
      returns (reply: Reply, ghost victim: string)
      requires Valid()
      modifies limiter, limiter.Repr, cache, pool, this`events, this`dropped
      ensures Valid() && fresh(limiter.Repr - old(limiter.Repr))
      ensures limiter.view == Limiting.Admit(old(limiter.view), source, start).0
      ensures |events| + dropped == old(|events| + dropped) + 1
      ensures old(|events|) < eventCapacity ==>
                events == old(events) + [Event(reply.origin, reply.message.rcode, ShownName(request))]
      // A query the limiter refuses, and one whose name the filter's labels refuse, get an empty reply.
      ensures !Limiting.Admit(old(limiter.view), source, start).1.Admits() ==>
                reply.origin == RateLimited && EmptyReply(reply.message, request, 5)
      ensures Limiting.Admit(old(limiter.view), source, start).1.Admits() ==>
                forall allow, deny :: filter == FilterOf(allow, deny) ==>
                  (reply.origin == Denied <==> !LabelsAllow(allow, deny, request))
                  && (reply.origin == Denied ==> EmptyReply(reply.message, request, filterRcode))
      ensures if !Limiting.Admit(old(limiter.view), source, start).1.Admits()
              then reply == Reply(RateLimited, SetRcode(request, RCODE_REFUSED))
                   && cache.View() == old(cache.View()) && pool.View() == old(pool.View())
              else var (r, p, store) := Answered(filter, filterRcode, old(cache.View()), old(pool.View()),
                                                 fallbackUpstreams, request, network, start, world);
                   && reply == r && pool.View() == p
                   && (store ==> Caching.LegalVictim(old(cache.View()), Some(request), Some(r.message), start, victim))
                   && cache.View() == CacheAfter(old(cache.View()), request, r, store, start, victim)
    {
      hide Limiting.Admit, Answered, CacheAfter, Caching.LegalVictim, FilterOf, LabelsAllow;
      victim := "";
      var admitted, _ := limiter.Allow(source, start);
      if !admitted {
        reply := Reply(RateLimited, SetRcode(request, RCODE_REFUSED));
      } else {
        ghost var c, p := cache.View(), pool.View();
        reply, victim := Answer(request, network, start, world);
        forall allow, deny | filter == FilterOf(allow, deny)
          ensures (reply.origin == Denied <==> !LabelsAllow(allow, deny, request))
          ensures reply.origin == Denied ==> EmptyReply(reply.message, request, filterRcode)
        {
          DeniedIffLabelsRefuse(
            filter, allow, deny, filterRcode, c, p, fallbackUpstreams, request, network, start, world);
        }
      }
      PublishEvent(Event(reply.origin, reply.message.rcode, NormalizeDomain(Some(request))));
    }

    method Answer(request: Msg, network: string, start: int, world: World) returns (reply: Reply, ghost victim: string)
      requires cache.Valid() && pool.Valid()
      modifies cache, pool
      ensures cache.Valid() && pool.Valid()
      ensures var (r, p, store) := Answered(filter, filterRcode, old(cache.View()), old(pool.View()), fallbackUpstreams,
                                            request, network, start, world);
              && reply == r && pool.View() == p
              && (store ==> Caching.LegalVictim(old(cache.View()), Some(request), Some(r.message), start, victim))
              && cache.View() == CacheAfter(old(cache.View()), request, r, store, start, victim)
    {
      var allowed := Allowed(filter, NormalizeDomain(Some(request)));
      if !allowed {
        return Reply(Denied, SetRcode(request, filterRcode)), "";
      }
      var hit := cache.Lookup(Some(request), start, world.outOfRange);
      if hit.Some? {
        return Reply(CacheHit, hit.value), "";
      }
      var response, _ := pool.Exchange(network, Some(request), world.dialled, world.engine);
      if response.None? {
        var stale := cache.LookupStale(Some(request), start, world.outOfRange);
        if stale.Some? {
          return Reply(StaleHit, stale.value), "";
        }
        var fallback := TryFallbackUpstreams(world.fallbacks);
        if fallback.Some? {
          victim := cache.Store(Some(request), fallback, start);
          return Reply(Fallback, fallback.value), victim;
        }
        response := Some(SetRcode(request, RCODE_SERVER_FAILURE));
      }
      victim := cache.Store(Some(request), response, start);
      return Reply(Engine, response.value), victim;
    }
  }
}
