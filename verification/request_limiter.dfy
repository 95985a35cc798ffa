/**
 The request limiter of pkg/proxy/proxy.go: one global bucket, a table of per-source
 buckets with TTL eviction and a cap, and one overflow bucket for sources the table
 cannot hold. The value `Limiter` and the function `Admit` specify the class; lemmas
 about whole runs of it are in limiter_runs.dfy.
 */
module RequestLimiters {
  import opened Wrappers
  import opened TokenBuckets

  datatype Entry = Entry(bucket: Bucket, lastSeen: int)

  datatype Table = Table(
    rate: real, burst: int, stateTTL: int, maxSources: int,
    overflow: Bucket, entries: map<string, Entry>, requestCount: nat)

  /** Either limit is absent when its rate or burst is not positive. */
  datatype Limiter = Limiter(global: Option<Bucket>, table: Option<Table>)

  /** The bucket a call is sent to. */
  datatype Route = Tracked(key: string) | Overflow

  datatype Verdict = RefusedGlobally | NoSourceLimit | PerSource(route: Route, ok: bool) {
    predicate Admits() {
      NoSourceLimit? || (PerSource? && ok)
    }
  }

  function KeyOf(source: string): string {
    if source == "" then "unknown" else source
  }

  /** The same source text, or both anonymous: "" is tracked under the name "unknown". */
  predicate SameCaller(a: string, b: string) {
    a == b || (a == "" && b == "unknown") || (a == "unknown" && b == "")
  }

  lemma SameKeyIffSameCaller(a: string, b: string)
    ensures KeyOf(a) == KeyOf(b) <==> SameCaller(a, b)
  {
  }

  function Purged(t: Table, now: int): Table {
    if t.stateTTL <= 0 then t else
      t.(entries := map k | k in t.entries && !(now - t.entries[k].lastSeen > t.stateTTL) :: t.entries[k])
  }

  /** Every 256th call purges before it looks anything up. */
  function Counted(t: Table, now: int): Table {
    var counted := t.(requestCount := t.requestCount + 1);
    if counted.requestCount % 256 == 0 then Purged(counted, now) else counted
  }

  function Room(t: Table, now: int): Table {
    if |t.entries| >= t.maxSources then Purged(t, now) else t
  }

  /** A source the table does not hold: a full table is purged, and overflows if it is still full. */
  function Added(t: Table, key: string, now: int): (Table, Route) {
    var room := Room(t, now);
    if |room.entries| >= room.maxSources then (room, Overflow) else
      match NewBucket(room.rate, room.burst, now)
      case None => (room, Overflow)
      case Some(bucket) => (room.(entries := room.entries[key := Entry(bucket, now)]), Tracked(key))
  }

  function Lookup(t: Table, source: string, now: int): (Table, Route) {
    var key := KeyOf(source);
    var t := Counted(t, now);
    if key in t.entries then
      (t.(entries := t.entries[key := t.entries[key].(lastSeen := now)]), Tracked(key))
    else
      Added(t, key, now)
  }

  function TakeVia(t: Table, route: Route, now: int): (Table, bool)
    requires route.Tracked? ==> route.key in t.entries
  {
    match route
    case Overflow =>
      var (b, ok) := Take(t.overflow, now);
      (t.(overflow := b), ok)
    case Tracked(key) =>
      var (b, ok) := Take(t.entries[key].bucket, now);
      (t.(entries := t.entries[key := t.entries[key].(bucket := b)]), ok)
  }

  /** One call. The global token is spent even when the per-source bucket then refuses. */
  function Admit(l: Limiter, source: string, now: int): (Limiter, Verdict) {
    var (global, passed) :=
      match l.global
      case None => (None, true)
      case Some(b) => (var (b', ok) := Take(b, now); (Some(b'), ok));
    if !passed then (Limiter(global, l.table), RefusedGlobally) else
    match l.table
    case None => (Limiter(global, None), NoSourceLimit)
    case Some(t) =>
      var (found, route) := Lookup(t, source, now);
      var (taken, ok) := TakeVia(found, route, now);
      (Limiter(global, Some(taken)), PerSource(route, ok))
  }

  class PerSourceLimiter {
    const bucket: TokenBucket
    var lastSeen: int

    constructor (bucket: TokenBucket, now: int)
      ensures this.bucket == bucket && lastSeen == now
    {
      this.bucket, lastSeen := bucket, now;
    }
  }

  /** `view` is the limiter's abstract value; Valid() ties it to the objects in `Repr`. */
  class RequestLimiter {
    const global: TokenBucket?
    const perSourceRate: real
    const perSourceBurst: int
    const stateTTL: int
    const maxSources: int
    const overflow: TokenBucket?  // null exactly when the source's perSource map is nil
    var perSource: map<string, PerSourceLimiter>
    var requestCount: nat
    ghost var view: Limiter
    ghost var Repr: set<object>

    ghost predicate Separate()
      reads this
    {
      && this !in Repr
      && (global != null ==> global in Repr && global != overflow)
      && (overflow != null ==> overflow in Repr)
      && (forall k :: k in perSource ==>
            && perSource[k] in Repr && perSource[k].bucket in Repr
            && perSource[k].bucket != overflow && perSource[k].bucket != global)
      && (forall k, j :: k in perSource && j in perSource && k != j ==>
            perSource[k] != perSource[j] && perSource[k].bucket != perSource[j].bucket)
    }

    ghost predicate Shows(entries: map<string, Entry>)
      requires Separate()
      reads this, Repr
    {
      && entries.Keys == perSource.Keys
      && (forall k :: k in perSource ==> entries[k] == Entry(perSource[k].bucket.View(), perSource[k].lastSeen))
    }

    ghost predicate ShowsTable(t: Table)
      requires Separate()
      reads this, Repr
    {
      && overflow != null
      && Shows(t.entries)
      && t == Table(perSourceRate, perSourceBurst, stateTTL, maxSources, overflow.View(), t.entries, requestCount)
    }

    ghost predicate Valid()
      reads this, Repr
    {
      && Separate()
      && view.global == (if global == null then None else Some(global.View()))
      && (overflow == null <==> view.table.None?)
      && (overflow != null ==> ShowsTable(view.table.value))
    }

    constructor (globalRate: real, globalBurst: int, sourceRate: real, sourceBurst: int,
                 stateTTL: int, maxSources: int, now: int)
      ensures Valid() && fresh(Repr)
      ensures view.global == NewBucket(globalRate, globalBurst, now)
      ensures view.table ==
              (match NewBucket(sourceRate, sourceBurst, now)
               case None => None
               case Some(b) => Some(Table(sourceRate, sourceBurst, stateTTL, maxSources, b, map[], 0)))
    {
      var g: TokenBucket? := null;
      var o: TokenBucket? := null;
      if globalRate > 0.0 && globalBurst > 0 {
        g := new TokenBucket(globalRate, globalBurst, now);
      }
      if sourceRate > 0.0 && sourceBurst > 0 {
        o := new TokenBucket(sourceRate, sourceBurst, now);
      }
      global, overflow := g, o;
      perSourceRate, perSourceBurst := sourceRate, sourceBurst;
      this.stateTTL, this.maxSources := stateTTL, maxSources;
      perSource, requestCount := map[], 0;
      Repr := (if g == null then {} else {g}) + (if o == null then {} else {o});
      view := Limiter(
        NewBucket(globalRate, globalBurst, now),
        match NewBucket(sourceRate, sourceBurst, now)
        case None => None
        case Some(b) => Some(Table(sourceRate, sourceBurst, stateTTL, maxSources, b, map[], 0)));
    }

    method CleanupExpired(now: int)
      requires Valid() && overflow != null
      modifies this`perSource, this`view
      ensures Valid() && perSource.Keys <= old(perSource.Keys)
      ensures view == old(view).(table := Some(Purged(old(view).table.value, now)))
    {
      if stateTTL <= 0 {
        return;
      }
      DeleteExpired(now);
      view := view.(table := Some(Purged(view.table.value, now)));
    }

    /** Ranges over the table in an arbitrary order, deleting as it goes. */
    method DeleteExpired(now: int)
      modifies this`perSource
      ensures perSource == map k | k in old(perSource) && !(now - old(perSource)[k].lastSeen > stateTTL)
                             :: old(perSource)[k]
    {
      ghost var was := perSource;
      var pending := perSource.Keys;
      while pending != {}
        invariant pending <= was.Keys
        invariant forall k :: k in perSource <==> k in was && (k in pending || !(now - was[k].lastSeen > stateTTL))
        invariant forall k :: k in perSource ==> perSource[k] == was[k]
        decreases |pending|
      {
        var key :| key in pending;
        pending := pending - {key};
        if now - perSource[key].lastSeen > stateTTL {
          perSource := perSource - {key};
        }
      }
    }

    method LookupPerSourceBucket(source: string, now: int) returns (bucket: TokenBucket)
      requires Valid() && overflow != null
      modifies this, Repr
      ensures Valid() && fresh(Repr - old(Repr))
      ensures view == old(view).(table := Some(Lookup(old(view).table.value, source, now).0))
      ensures match Lookup(old(view).table.value, source, now).1
              case Tracked(key) => key in perSource && bucket == perSource[key].bucket
              case Overflow => bucket == overflow
    {
      var key := if source == "" then "unknown" else source;
      CountCall(now);
      if key in perSource {
        bucket := Touch(key, now);
      } else {
        bucket := Add(key, now);
      }
    }

    method CountCall(now: int)
      requires Valid() && overflow != null
      modifies this`requestCount, this`perSource, this`view
      ensures Valid()
      ensures view == old(view).(table := Some(Counted(old(view).table.value, now)))
    {
      requestCount := requestCount + 1;
      view := view.(table := Some(view.table.value.(requestCount := requestCount)));
      if requestCount % 256 == 0 {
        CleanupExpired(now);
      }
    }

    method Add(key: string, now: int) returns (bucket: TokenBucket)
      requires Valid() && overflow != null && key !in perSource
      modifies this
      ensures Valid() && fresh(Repr - old(Repr))
      ensures view == old(view).(table := Some(Added(old(view).table.value, key, now).0))
      ensures match Added(old(view).table.value, key, now).1
              case Tracked(k) => k in perSource && bucket == perSource[k].bucket
              case Overflow => bucket == overflow
    {
      var full := MakeRoom(now);
      if full {
        return overflow;
      }
      if perSourceRate <= 0.0 || perSourceBurst <= 0 {
        return overflow;
      }
      bucket := Insert(key, now);
    }

    method MakeRoom(now: int) returns (full: bool)
      requires Valid() && overflow != null
      modifies this`perSource, this`view
      ensures Valid() && perSource.Keys <= old(perSource.Keys)
      ensures var room := Room(old(view).table.value, now);
              view == old(view).(table := Some(room)) && full == (|room.entries| >= room.maxSources)
    {
      full := AtCap();
      if full {
        CleanupExpired(now);
        full := AtCap();
      }
    }

    method AtCap() returns (full: bool)
      requires Valid() && overflow != null
      ensures full == (|view.table.value.entries| >= view.table.value.maxSources)
    {
      assert view.table.value.entries.Keys == perSource.Keys;
      full := |perSource| >= maxSources;
    }

    method Touch(key: string, now: int) returns (bucket: TokenBucket)
      requires Valid() && overflow != null && key in perSource
      modifies perSource[key], this`view
      ensures Valid() && bucket == perSource[key].bucket
      ensures var t := old(view).table.value;
              view == old(view).(table :=
                Some(t.(entries := t.entries[key := t.entries[key].(lastSeen := now)])))
    {
      var entry := perSource[key];
      entry.lastSeen := now;
      ghost var t := view.table.value;
      view := view.(table := Some(t.(entries := t.entries[key := t.entries[key].(lastSeen := now)])));
      return entry.bucket;
    }

    method Insert(key: string, now: int) returns (bucket: TokenBucket)
      requires Valid() && overflow != null && key !in perSource
      requires perSourceRate > 0.0 && perSourceBurst > 0
      modifies this
      ensures Valid() && fresh(Repr - old(Repr))
      ensures key in perSource && bucket == perSource[key].bucket
      ensures var t := old(view).table.value;
              var b := NewBucket(perSourceRate, perSourceBurst, now);
              view == old(view).(table := Some(t.(entries := t.entries[key := Entry(b.value, now)])))
    {
      bucket := new TokenBucket(perSourceRate, perSourceBurst, now);
      var entry := new PerSourceLimiter(bucket, now);
      perSource := perSource[key := entry];
      Repr := Repr + {bucket, entry};
      ghost var t := view.table.value;
      view := view.(table := Some(t.(entries := t.entries[key := Entry(bucket.View(), now)])));
    }

    method Allow(source: string, now: int) returns (ok: bool, ghost verdict: Verdict)
      requires Valid()
      modifies this, Repr
      ensures Valid() && fresh(Repr - old(Repr))
      ensures (view, verdict) == Admit(old(view), source, now)
      ensures ok == verdict.Admits()
    {
      if global != null {
        var passed := TakeGlobal(now);
        if !passed {
          return false, RefusedGlobally;
        }
      }
      if overflow == null {
        return true, NoSourceLimit;
      }
      ok, verdict := AllowSource(source, now);
    }

    method AllowSource(source: string, now: int) returns (ok: bool, ghost verdict: Verdict)
      requires Valid() && overflow != null
      modifies this, Repr
      ensures Valid() && fresh(Repr - old(Repr))
      ensures var (found, route) := Lookup(old(view).table.value, source, now);
              var (taken, admitted) := TakeVia(found, route, now);
              && view == old(view).(table := Some(taken))
              && ok == admitted && verdict == PerSource(route, ok)
    {
      ghost var route := Lookup(view.table.value, source, now).1;
      var bucket := LookupPerSourceBucket(source, now);
      ok := TakeFrom(bucket, route, now);
      verdict := PerSource(route, ok);
    }

    method TakeGlobal(now: int) returns (passed: bool)
      requires Valid() && global != null
      modifies this`view, global
      ensures Valid()
      ensures var (b, admitted) := Take(old(view).global.value, now);
              view == old(view).(global := Some(b)) && passed == admitted
    {
      passed := global.Allow(now);
      view := view.(global := Some(global.View()));
    }

    /** The bucket's own call, after the table lock is released. */
    method TakeFrom(bucket: TokenBucket, ghost route: Route, now: int) returns (ok: bool)
      requires Valid() && overflow != null
      requires match route
               case Tracked(key) => key in perSource && bucket == perSource[key].bucket
               case Overflow => bucket == overflow
      modifies this`view, bucket
      ensures Valid()
      ensures var (t, admitted) := TakeVia(old(view).table.value, route, now);
              view == old(view).(table := Some(t)) && ok == admitted
    {
      ghost var (t, admitted) := TakeVia(view.table.value, route, now);
      ok := bucket.Allow(now);
      view := view.(table := Some(t));
    }
  }
}
