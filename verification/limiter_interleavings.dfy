/**
 The request limiter under any number of concurrent calls. A call takes three locks, one after the
 other: the global bucket's, the table's and its own bucket's; each is one atomic step here. Buckets
 have identities, since a call may still hold one that the table has meanwhile forgotten.
 */
module LimiterInterleavings {
  import opened Wrappers
  import opened Sets
  import opened TokenBuckets
  import opened RequestLimiters
  import LimiterRuns

  datatype Slot = Slot(id: nat, lastSeen: int)

  /** The table, with bucket identities for buckets. */
  datatype Shape = Shape(
    rate: real, burst: int, stateTTL: int, maxSources: int,
    overflow: Bucket, slots: map<string, Slot>, requestCount: nat)

  datatype Phase =
    | Waiting
    | Passed                        // the global bucket let it pass
    | Holding(own: Option<nat>)     // looked up; None is the overflow bucket
    | Done(passed: bool, admitted: bool)

  datatype Call = Call(source: string, at: int, phase: Phase)

  datatype Which = AtGlobal | AtOverflow | AtOwn(id: nat)

  /** One take: the bucket, the call, its timestamp and the bucket's answer. */
  datatype Taken = Taken(which: Which, call: nat, at: int, ok: bool)

  /** A per-source bucket as it was made, and for whom. */
  datatype Birth = Birth(key: string, bucket: Bucket)

  datatype System = System(
    global: Option<Bucket>, shape: Option<Shape>, buckets: map<nat, Bucket>, births: map<nat, Birth>,
    calls: map<nat, Call>, log: seq<Taken>)

  datatype Step =
    | Begin(call: nat, source: string, at: int)
    | TakeGlobal(call: nat)
    | LookUp(call: nat, id: nat)    // the identity a new bucket would get
    | TakeOwn(call: nat)

  ghost predicate Enabled(s: System, step: Step) {
    match step
    case Begin(c, _, _) => c !in s.calls
    case TakeGlobal(c) => c in s.calls && s.calls[c].phase.Waiting?
    case LookUp(c, id) =>
      c in s.calls && s.calls[c].phase.Passed? && s.shape.Some? && id !in s.buckets && id !in s.births
    case TakeOwn(c) => c in s.calls && s.calls[c].phase.Holding? && s.shape.Some? &&
                       (s.calls[c].phase.own.Some? ==> s.calls[c].phase.own.value in s.buckets)
  }

  /** The table by value: what the lookup of request_limiter.dfy works on. */
  function TableOf(h: Shape, buckets: map<nat, Bucket>): Table {
    Table(h.rate, h.burst, h.stateTTL, h.maxSources, h.overflow,
          map k | k in h.slots && h.slots[k].id in buckets :: Entry(buckets[h.slots[k].id], h.slots[k].lastSeen),
          h.requestCount)
  }

  function LimiterOf(s: System): Limiter {
    Limiter(s.global, if s.shape.None? then None else Some(TableOf(s.shape.value, s.buckets)))
  }

  /** The lookup made a bucket for the key. */
  predicate Makes(t: Table, source: string, at: int) {
    Lookup(t, source, at).1.Tracked? && KeyOf(source) !in Counted(t, at).entries
  }

  ghost function To(s: System, call: nat, phase: Phase): System
    requires call in s.calls
  {
    s.(calls := s.calls[call := s.calls[call].(phase := phase)])
  }

  function SlotsAfter(h: Shape, found: Table, key: string, made: bool, id: nat, at: int): map<string, Slot> {
    map k | k in found.entries :: if made && k == key then Slot(id, at)
                                  else Slot(if k in h.slots then h.slots[k].id else id, found.entries[k].lastSeen)
  }

  /** The new shape, the bucket made if any, and the identity of the caller's own bucket if any. */
  function LookUpShape(h: Shape, buckets: map<nat, Bucket>, source: string, at: int, id: nat)
    : (Shape, Option<Bucket>, Option<nat>)
  {
    var key, t := KeyOf(source), TableOf(h, buckets);
    var found := Lookup(t, source, at).0;
    var made := Makes(t, source, at) && key in found.entries;
    var slots := SlotsAfter(h, found, key, made, id, at);
    (h.(slots := slots, requestCount := found.requestCount),
     if made then Some(found.entries[key].bucket) else None,
     if key in slots then Some(slots[key].id) else None)
  }

  ghost function LookedUp(s: System, call: nat, id: nat): System
    requires Enabled(s, LookUp(call, id))
  {
    var c := s.calls[call];
    var (h, made, own) := LookUpShape(s.shape.value, s.buckets, c.source, c.at, id);
    To(s.(shape := Some(h), buckets := WithNew(s.buckets, id, made),
          births := if made.Some? then s.births[id := Birth(KeyOf(c.source), made.value)] else s.births),
       call, Holding(own))
  }

  function WithNew(buckets: map<nat, Bucket>, id: nat, made: Option<Bucket>): map<nat, Bucket> {
    if made.Some? then buckets[id := made.value] else buckets
  }

  ghost function Apply(s: System, step: Step): System
    requires Enabled(s, step)
  {
    match step
    case Begin(c, source, at) => s.(calls := s.calls[c := Call(source, at, Waiting)])
    case TakeGlobal(c) =>
      var next := if s.shape.None? then Done(true, true) else Passed;
      if s.global.None? then To(s, c, next) else
      var (b, ok) := Take(s.global.value, s.calls[c].at);
      To(s.(global := Some(b), log := s.log + [Taken(AtGlobal, c, s.calls[c].at, ok)]), c,
         if ok then next else Done(false, false))
    case LookUp(c, id) => LookedUp(s, c, id)
    case TakeOwn(c) =>
      var at := s.calls[c].at;
      if s.calls[c].phase.own.None? then
        var (b, ok) := Take(s.shape.value.overflow, at);
        To(s.(shape := Some(s.shape.value.(overflow := b)), log := s.log + [Taken(AtOverflow, c, at, ok)]),
           c, Done(true, ok))
      else
        var id := s.calls[c].phase.own.value;
        var (b, ok) := Take(s.buckets[id], at);
        To(s.(buckets := s.buckets[id := b], log := s.log + [Taken(AtOwn(id), c, at, ok)]), c, Done(true, ok))
  }

  /** A limiter no call has reached yet. */
  ghost predicate Initial(s: System) {
    && s.buckets == map[] && s.births == map[] && s.calls == map[] && s.log == []
    && (s.global.Some? ==> s.global.value.Valid())
    && (s.shape.Some? ==>
          var h := s.shape.value;
          (h.rate > 0.0 && h.burst > 0 && h.overflow.Valid() && h.slots == map[] && h.maxSources >= 0))
  }

  ghost predicate IsRun(s: System, steps: seq<Step>)
    decreases |steps|, 0
  {
    steps == [] ||
    (IsRun(s, steps[..|steps| - 1]) && Enabled(Run(s, steps[..|steps| - 1]), steps[|steps| - 1]))
  }

  ghost function Run(s: System, steps: seq<Step>): System
    requires IsRun(s, steps)
    decreases |steps|, 1
  {
    if steps == [] then s else Apply(Run(s, steps[..|steps| - 1]), steps[|steps| - 1])
  }

  // ---------------------------------------------------------------- each bucket replays its own log

  /** The times of the calls that took one bucket's lock, in that order. */
  function TimesAt(log: seq<Taken>, which: Which): seq<int> {
    if log == [] then [] else
      var last := log[|log| - 1];
      TimesAt(log[..|log| - 1], which) + if last.which == which then [last.at] else []
  }

  /** How many of them got a token. */
  function OksAt(log: seq<Taken>, which: Which): nat {
    if log == [] then 0 else
      var last := log[|log| - 1];
      OksAt(log[..|log| - 1], which) + if last.which == which && last.ok then 1 else 0
  }

  ghost predicate Replays(born: Bucket, b: Bucket, log: seq<Taken>, which: Which) {
    && b == After(born, TimesAt(log, which))
    && OksAt(log, which) == AdmittedCount(born, TimesAt(log, which))
    && DecidesByPast(born, log, which)
  }

  /** Every answer the bucket gave is the one its earlier takes call for. */
  ghost predicate DecidesByPast(born: Bucket, log: seq<Taken>, which: Which) {
    forall i :: 0 <= i < |log| && log[i].which == which ==>
      log[i].ok == Take(After(born, TimesAt(log[..i], which)), log[i].at).1
  }

  lemma ReplaysOfOneMore(born: Bucket, b: Bucket, log: seq<Taken>, which: Which, t: Taken)
    requires Replays(born, b, log, which)
    ensures t.which != which ==> Replays(born, b, log + [t], which)
    ensures t.which == which && t.ok == Take(b, t.at).1 ==> Replays(born, Take(b, t.at).0, log + [t], which)
  {
    var times := TimesAt(log, which);
    OneMoreTaken(log, t, which);
    AfterOneMore(born, times, t.at);
    hide After, AdmittedCount, TimesAt, OksAt, Take;
    assert (log + [t])[..|log|] == log;
    assert forall i :: 0 <= i < |log| ==> (log + [t])[..i] == log[..i] && (log + [t])[i] == log[i];
  }

  lemma OneMoreTaken(log: seq<Taken>, t: Taken, which: Which)
    ensures TimesAt(log + [t], which) == if t.which == which then TimesAt(log, which) + [t.at] else TimesAt(log, which)
    ensures OksAt(log + [t], which) == OksAt(log, which) + if t.which == which && t.ok then 1 else 0
  {
    assert (log + [t])[..|log|] == log;
  }

  lemma AfterOneMore(b: Bucket, times: seq<int>, at: int)
    ensures After(b, times + [at]) == Take(After(b, times), at).0
    ensures AdmittedCount(b, times + [at]) == AdmittedCount(b, times) + if Take(After(b, times), at).1 then 1 else 0
  {
    assert (times + [at])[..|times|] == times;
  }

  lemma ReplayIsBounded(born: Bucket, b: Bucket, log: seq<Taken>, which: Which)
    requires born.Valid() && Replays(born, b, log, which)
    ensures OksAt(log, which) as real <= born.burst + Accrued(born.rate, ForwardSteps(TimesAt(log, which)))
  {
    AdmissionsBoundedByForwardSteps(born, TimesAt(log, which));
  }

  // ---------------------------------------------------------------- what every step keeps

  ghost predicate SameSettings(first: System, s: System) {
    && s.global.Some? == first.global.Some? && s.shape.Some? == first.shape.Some?
    && (s.shape.Some? ==>
          var h, h0 := s.shape.value, first.shape.value;
          (h.rate == h0.rate && h.burst == h0.burst && h.stateTTL == h0.stateTTL && h.maxSources == h0.maxSources))
  }

  ghost predicate EveryBucketReplays(first: System, s: System) {
    && (s.global.Some? ==> first.global.Some? && Replays(first.global.value, s.global.value, s.log, AtGlobal))
    && (s.shape.Some? ==>
          first.shape.Some? && Replays(first.shape.value.overflow, s.shape.value.overflow, s.log, AtOverflow))
    && (forall id :: id in s.buckets ==>
          id in s.births && Replays(s.births[id].bucket, s.buckets[id], s.log, AtOwn(id)))
    && (forall i :: 0 <= i < |s.log| && s.log[i].which.AtOwn? ==> s.log[i].which.id in s.births)
  }

  /** Every bucket was made full for one source; the table and the calls use only that source's. */
  ghost predicate EveryBucketOwned(s: System) {
    && s.births.Keys == s.buckets.Keys
    && (forall id :: id in s.births ==> s.shape.Some? && MadeBy(s.shape.value, s.births[id].bucket))
    && (s.shape.Some? ==> forall k :: k in s.shape.value.slots ==> Owns(s, k, s.shape.value.slots[k].id))
    && (forall c :: c in s.calls && s.calls[c].phase.Holding? ==>
          var own := s.calls[c].phase.own;
          (s.shape.Some? && (own.Some? ==> Owns(s, KeyOf(s.calls[c].source), own.value))))
    && (forall i :: 0 <= i < |s.log| && s.log[i].which.AtOwn? ==>
          s.log[i].call in s.calls && Owns(s, KeyOf(s.calls[s.log[i].call].source), s.log[i].which.id))
  }

  ghost predicate MadeBy(h: Shape, b: Bucket) {
    b.Full() && b.rate == h.rate && b.burst == h.burst as real
  }

  ghost predicate Owns(s: System, key: string, id: nat) {
    id in s.births && s.births[id].key == key
  }

  ghost predicate WithinCap(s: System) {
    s.shape.Some? ==>
      s.shape.value.rate > 0.0 && s.shape.value.burst > 0 && |s.shape.value.slots| <= s.shape.value.maxSources
  }

  predicate HasPassed(phase: Phase) {
    phase.Passed? || phase.Holding? || (phase.Done? && phase.passed)
  }

  function PassedCalls(s: System): set<nat> {
    set c | c in s.calls && HasPassed(s.calls[c].phase)
  }

  function AdmittedCalls(s: System): set<nat> {
    set c | c in s.calls && s.calls[c].phase.Done? && s.calls[c].phase.admitted
  }

  ghost predicate PassedCounted(s: System) {
    && (s.global.Some? ==> |PassedCalls(s)| == OksAt(s.log, AtGlobal))
    && (forall c :: c in s.calls && s.calls[c].phase.Done? && s.calls[c].phase.admitted ==> s.calls[c].phase.passed)
  }

  // ---------------------------------------------------------------- the lookup by identities

  /** What a lookup leaves alone, and what it adds. */
  lemma LookupTouches(t: Table, source: string, at: int)
    requires t.rate > 0.0 && t.burst > 0
    ensures var (found, route) := Lookup(t, source, at);
            var key, made := KeyOf(source), Makes(t, source, at);
            && found == t.(entries := found.entries, requestCount := t.requestCount + 1)
            && (forall k :: k in found.entries && !(made && k == key) ==>
                  k in t.entries && found.entries[k].bucket == t.entries[k].bucket)
            && (made ==> key in found.entries && NewBucket(t.rate, t.burst, at) == Some(found.entries[key].bucket)
                         && found.entries[key].lastSeen == at)
            && (route == Overflow <==> key !in found.entries) && (route.Tracked? ==> route.key == key)
            && (|t.entries| <= t.maxSources ==> |found.entries| <= t.maxSources)
  {
    LimiterRuns.LookupAddsOnlyCaller(t, source, at);
  }

  ghost predicate AllBacked(h: Shape, buckets: map<nat, Bucket>) {
    forall k :: k in h.slots ==> h.slots[k].id in buckets
  }

  lemma SizeOfTable(h: Shape, buckets: map<nat, Bucket>)
    requires AllBacked(h, buckets)
    ensures TableOf(h, buckets).entries.Keys == h.slots.Keys && |TableOf(h, buckets).entries| == |h.slots|
  {
    var entries := TableOf(h, buckets).entries;
    assert entries.Keys == h.slots.Keys && |entries.Keys| == |h.slots.Keys|;
  }

  lemma SlotsFit(h: Shape, buckets: map<nat, Bucket>, t: Table, found: Table, key: string, made: bool, id: nat, at: int)
    requires AllBacked(h, buckets) && id !in buckets && t == TableOf(h, buckets)
    requires forall k :: k in found.entries && !(made && k == key) ==>
               k in t.entries && found.entries[k].bucket == t.entries[k].bucket
    requires made ==> key in found.entries && found.entries[key].lastSeen == at
    ensures var slots := SlotsAfter(h, found, key, made, id, at);
            var after := if made then buckets[id := found.entries[key].bucket] else buckets;
            && slots.Keys == found.entries.Keys && |slots| == |found.entries|
            && (forall k :: k in slots ==>
                  if made && k == key then slots[k].id == id else k in h.slots && slots[k].id == h.slots[k].id)
            && (forall k :: k in slots ==> slots[k].id in after)
            && TableOf(h.(slots := slots, requestCount := found.requestCount), after).entries == found.entries
  {
    var slots := SlotsAfter(h, found, key, made, id, at);
    assert slots.Keys == found.entries.Keys && |slots.Keys| == |found.entries.Keys|;
  }

  /** The lookup by identities is the lookup by value. */
  lemma LookUpRefines(h: Shape, buckets: map<nat, Bucket>, source: string, at: int, id: nat)
    requires AllBacked(h, buckets) && id !in buckets && h.rate > 0.0 && h.burst > 0 && |h.slots| <= h.maxSources
    ensures var (h', made, own) := LookUpShape(h, buckets, source, at, id);
            var (found, route) := Lookup(TableOf(h, buckets), source, at);
            && TableOf(h', WithNew(buckets, id, made)) == found
            && SlotsEffect(h, h', KeyOf(source), id, made.Some?)
            && (made.Some? ==> made == NewBucket(h.rate, h.burst, at))
            && Routes(h', KeyOf(source), own, route)
  {
    var t := TableOf(h, buckets);
    SizeOfTable(h, buckets);
    LookupTouches(t, source, at);
    var key, found := KeyOf(source), Lookup(t, source, at).0;
    SlotsFit(h, buckets, t, found, key, Makes(t, source, at), id, at);
    hide Lookup, Makes, TableOf, SlotsAfter;
    assert TableOf(h, buckets).rate == h.rate by { TableKeeps(h, buckets); }
  }

  lemma TableKeeps(h: Shape, buckets: map<nat, Bucket>)
    ensures var t := TableOf(h, buckets);
            t == Table(h.rate, h.burst, h.stateTTL, h.maxSources, h.overflow, t.entries, h.requestCount)
  {
  }

  ghost predicate SlotsEffect(h: Shape, h': Shape, key: string, id: nat, made: bool) {
    && h' == h.(slots := h'.slots, requestCount := h'.requestCount) && |h'.slots| <= h'.maxSources
    && forall k :: k in h'.slots ==>
         if made && k == key then h'.slots[k].id == id else k in h.slots && h'.slots[k].id == h.slots[k].id
  }

  /** The identity stands for the route. */
  ghost predicate Routes(h: Shape, key: string, own: Option<nat>, route: Route) {
    match route
    case Overflow => own.None?
    case Tracked(k) => k == key && key in h.slots && own == Some(h.slots[key].id)
  }

  // ---------------------------------------------------------------- the invariant

  ghost predicate Inv(first: System, s: System) {
    && SameSettings(first, s) && EveryBucketReplays(first, s) && EveryBucketOwned(s) && WithinCap(s) && PassedCounted(s)
  }

  lemma {:induction false} NoneTaken(log: seq<Taken>, which: Which)
    requires forall i :: 0 <= i < |log| ==> log[i].which != which
    ensures TimesAt(log, which) == [] && OksAt(log, which) == 0
  {
    if log != [] {
      NoneTaken(log[..|log| - 1], which);
    }
  }

  /** One more take replays in its own bucket and shows in no other. */
  lemma TakeKeepsReplays(first: System, s: System, s': System, t: Taken)
    requires EveryBucketReplays(first, s) && TakeEffect(s, s', t)
    ensures EveryBucketReplays(first, s')
  {
    hide Replays, Take;
    if s.global.Some? {
      ReplaysOfOneMore(first.global.value, s.global.value, s.log, AtGlobal, t);
    }
    if s.shape.Some? {
      ReplaysOfOneMore(first.shape.value.overflow, s.shape.value.overflow, s.log, AtOverflow, t);
    }
    forall id | id in s'.buckets
      ensures id in s'.births && Replays(s'.births[id].bucket, s'.buckets[id], s'.log, AtOwn(id)) {
      ReplaysOfOneMore(s.births[id].bucket, s.buckets[id], s.log, AtOwn(id), t);
    }
  }

  lemma NewReplays(born: Bucket, log: seq<Taken>, which: Which)
    requires TimesAt(log, which) == [] && OksAt(log, which) == 0
    requires forall i :: 0 <= i < |log| ==> log[i].which != which
    ensures Replays(born, born, log, which)
  {
  }

  /** What a lookup step changes, as far as the invariant is concerned. */
  ghost predicate LookUpEffect(s: System, s': System, call: nat, id: nat, made: bool)
    requires Enabled(s, LookUp(call, id))
  {
    var c, h := s.calls[call], s.shape.value;
    var own := NewBucket(h.rate, h.burst, c.at);
    && own.Some? && s'.shape.Some? && s'.global == s.global && s'.log == s.log
    && SlotsEffect(h, s'.shape.value, KeyOf(c.source), id, made)
    && s'.buckets == (if made then s.buckets[id := own.value] else s.buckets)
    && s'.births == (if made then s.births[id := Birth(KeyOf(c.source), own.value)] else s.births)
    && OnlyCall(s, s', call) && s'.calls[call].phase.Holding?
    && exists route :: Routes(s'.shape.value, KeyOf(c.source), s'.calls[call].phase.own, route)
  }

  /** Of the calls, only this one moves. */
  ghost predicate OnlyCall(s: System, s': System, call: nat) {
    && call in s.calls && call in s'.calls
    && s'.calls == s.calls[call := s.calls[call].(phase := s'.calls[call].phase)]
  }

  lemma OwnedIsBacked(s: System)
    requires EveryBucketOwned(s) && s.shape.Some?
    ensures AllBacked(s.shape.value, s.buckets)
  {
    var h := s.shape.value;
    forall k | k in h.slots ensures h.slots[k].id in s.buckets {
      assert Owns(s, k, h.slots[k].id) && h.slots[k].id in s.births.Keys;
    }
  }

  lemma LookUpHasEffect(s: System, call: nat, id: nat) returns (made: bool)
    requires Enabled(s, LookUp(call, id)) && EveryBucketOwned(s) && WithinCap(s)
    ensures LookUpEffect(s, LookedUp(s, call, id), call, id, made)
  {
    var c, h := s.calls[call], s.shape.value;
    OwnedIsBacked(s);
    LookUpRefines(h, s.buckets, c.source, c.at, id);
    made := LookUpShape(h, s.buckets, c.source, c.at, id).1.Some?;
    hide Lookup, LookUpShape, SlotsEffect, EveryBucketOwned, TableOf;
  }

  // Each step keeps each part.

  lemma LookUpKeepsReplays(first: System, s: System, s': System, call: nat, id: nat, made: bool)
    requires EveryBucketReplays(first, s) && Enabled(s, LookUp(call, id)) && LookUpEffect(s, s', call, id, made)
    ensures EveryBucketReplays(first, s')
  {
    NoneTaken(s.log, AtOwn(id));
    if made {
      NewReplays(s'.births[id].bucket, s.log, AtOwn(id));
    }
    hide Replays, SlotsEffect, OnlyCall;
  }

  lemma LookUpKeepsOwned(s: System, s': System, call: nat, id: nat, made: bool)
    requires EveryBucketOwned(s) && Enabled(s, LookUp(call, id)) && LookUpEffect(s, s', call, id, made)
    ensures EveryBucketOwned(s')
  {
    var key := KeyOf(s.calls[call].source);
    forall k, i | Owns(s, k, i) ensures Owns(s', k, i) {}
    forall k | k in s'.shape.value.slots ensures Owns(s', k, s'.shape.value.slots[k].id) {
      if !(made && k == key) {
        assert Owns(s, k, s.shape.value.slots[k].id);
      }
    }
    hide KeyOf, NewBucket;
  }

  lemma LookUpKeepsInv(first: System, s: System, call: nat, id: nat)
    requires Inv(first, s) && Enabled(s, LookUp(call, id))
    ensures Inv(first, Apply(s, LookUp(call, id)))
  {
    hide LookedUp, EveryBucketReplays, EveryBucketOwned, OksAt, PassedCalls;
    var made := LookUpHasEffect(s, call, id);
    var s' := LookedUp(s, call, id);
    LookUpKeepsReplays(first, s, s', call, id, made);
    LookUpKeepsOwned(s, s', call, id, made);
    PassedOfOneCall(s, s', call);
  }

  /** What a take changes. */
  ghost predicate TakeEffect(s: System, s': System, t: Taken) {
    && OnlyCall(s, s', t.call) && !s'.calls[t.call].phase.Holding?
    && s'.log == s.log + [t] && s'.births == s.births
    && (t.which.AtOwn? ==> t.which.id in s.buckets && Owns(s, KeyOf(s.calls[t.call].source), t.which.id))
    && BucketEffect(s, s', t)
  }

  ghost predicate BucketEffect(s: System, s': System, t: Taken)
    requires t.which.AtOwn? ==> t.which.id in s.buckets
  {
    && (t.which.AtGlobal? ==> s.global.Some?) && (t.which.AtOverflow? ==> s.shape.Some?)
    && var b := if t.which.AtGlobal? then s.global.value else if t.which.AtOverflow? then s.shape.value.overflow
                else s.buckets[t.which.id];
       var (after, ok) := Take(b, t.at);
       (&& t.ok == ok
        && s'.global == (if t.which.AtGlobal? then Some(after) else s.global)
        && s'.shape == (if t.which.AtOverflow? then Some(s.shape.value.(overflow := after)) else s.shape)
        && s'.buckets == (if t.which.AtOwn? then s.buckets[t.which.id := after] else s.buckets))
  }

  lemma TakeKeepsOwned(s: System, s': System, t: Taken)
    requires EveryBucketOwned(s) && TakeEffect(s, s', t)
    ensures EveryBucketOwned(s')
  {
    hide Take, KeyOf;
    forall k, i ensures Owns(s', k, i) <==> Owns(s, k, i) {}
  }

  lemma TakeKeepsInv(first: System, s: System, s': System, t: Taken)
    requires Inv(first, s) && TakeEffect(s, s', t) && PassedCounted(s')
    ensures Inv(first, s')
  {
    TakeKeepsReplays(first, s, s', t);
    TakeKeepsOwned(s, s', t);
    hide Take, EveryBucketReplays, EveryBucketOwned, PassedCounted;
  }

  lemma PassedOfOneCall(s: System, s': System, call: nat)
    requires OnlyCall(s, s', call)
    ensures var had, has := HasPassed(s.calls[call].phase), HasPassed(s'.calls[call].phase);
            && (had == has ==> PassedCalls(s') == PassedCalls(s))
            && (!had && has ==> |PassedCalls(s')| == |PassedCalls(s)| + 1)
  {
    hide HasPassed;
    var had, has := HasPassed(s.calls[call].phase), HasPassed(s'.calls[call].phase);
    if had == has {
      assert PassedCalls(s') == PassedCalls(s);
    } else if has {
      assert PassedCalls(s') == PassedCalls(s) + {call} && call !in PassedCalls(s);
    }
  }

  lemma PassedAfterTake(s: System, s': System, t: Taken)
    requires PassedCounted(s) && OnlyCall(s, s', t.call) && s'.log == s.log + [t]
    requires s'.global.Some? == s.global.Some?
    requires var phase, phase' := s.calls[t.call].phase, s'.calls[t.call].phase;
             && (phase'.Done? && phase'.admitted ==> phase'.passed)
             && if t.which.AtGlobal? then !HasPassed(phase) && HasPassed(phase') == t.ok
                else HasPassed(phase) && HasPassed(phase')
    ensures PassedCounted(s')
  {
    hide OksAt, HasPassed, PassedCalls;
    OneMoreTaken(s.log, t, AtGlobal);
    PassedOfOneCall(s, s', t.call);
  }

  lemma StepKeepsInv(first: System, s: System, step: Step)
    requires Inv(first, s) && Enabled(s, step)
    ensures Inv(first, Apply(s, step))
  {
    match step
    case Begin(c, source, at) => BeginKeepsInv(first, s, c, source, at);
    case LookUp(c, id) => LookUpKeepsInv(first, s, c, id);
    case TakeOwn(c) => TakeOwnKeepsInv(first, s, c);
    case TakeGlobal(c) => TakeGlobalKeepsInv(first, s, c);
  }

  lemma BeginKeepsInv(first: System, s: System, c: nat, source: string, at: int)
    requires Inv(first, s) && Enabled(s, Begin(c, source, at))
    ensures Inv(first, Apply(s, Begin(c, source, at)))
  {
    hide Replays, OksAt;
    var s' := Apply(s, Begin(c, source, at));
    assert PassedCalls(s') == PassedCalls(s);
  }

  lemma TakeOwnKeepsInv(first: System, s: System, c: nat)
    requires Inv(first, s) && Enabled(s, TakeOwn(c))
    ensures Inv(first, Apply(s, TakeOwn(c)))
  {
    hide Take, EveryBucketReplays, OksAt, PassedCalls;
    var s' := Apply(s, TakeOwn(c));
    var t := s'.log[|s.log|];
    PassedAfterTake(s, s', t);
    TakeKeepsInv(first, s, s', t);
  }

  lemma TakeGlobalKeepsInv(first: System, s: System, c: nat)
    requires Inv(first, s) && Enabled(s, TakeGlobal(c))
    ensures Inv(first, Apply(s, TakeGlobal(c)))
  {
    hide Take, EveryBucketReplays, OksAt, PassedCalls;
    var s' := Apply(s, TakeGlobal(c));
    if s.global.Some? {
      var t := s'.log[|s.log|];
      PassedAfterTake(s, s', t);
      TakeKeepsInv(first, s, s', t);
    } else {
      UngatedKeepsInv(first, s, s', c);
    }
  }

  /** Without a global bucket the call passes and nothing else changes. */
  lemma UngatedKeepsInv(first: System, s: System, s': System, c: nat)
    requires Inv(first, s) && OnlyCall(s, s', c) && !s'.calls[c].phase.Holding? && HasPassed(s'.calls[c].phase)
    requires s' == s.(calls := s'.calls) && s.global.None?
    ensures Inv(first, s')
  {
    hide Replays, OksAt, PassedCalls;
  }

  lemma {:induction false} InvAlongRun(first: System, steps: seq<Step>)
    requires Initial(first) && IsRun(first, steps)
    ensures Inv(first, Run(first, steps))
  {
    hide Inv, Apply, Enabled;
    if steps == [] {
      InitialInv(first);
    } else {
      InvAlongRun(first, steps[..|steps| - 1]);
      StepKeepsInv(first, Run(first, steps[..|steps| - 1]), steps[|steps| - 1]);
    }
  }

  lemma InitialInv(first: System)
    requires Initial(first)
    ensures Inv(first, first)
  {
    assert PassedCalls(first) == {};
  }

  // ---------------------------------------------------------------- the main results

  /** In every interleaving the table keeps its cap. */
  lemma {:induction false} CapHolds(first: System, steps: seq<Step>)
    requires Initial(first) && IsRun(first, steps) && first.shape.Some?
    ensures var end := Run(first, steps);
            end.shape.Some? && end.shape.value.maxSources == first.shape.value.maxSources
            && |end.shape.value.slots| <= first.shape.value.maxSources
  {
    InvAlongRun(first, steps);
  }

  /** In every interleaving no more calls are admitted than the global bucket's bound. */
  lemma {:induction false} AdmissionsKeepGlobalBound(first: System, steps: seq<Step>)
    requires Initial(first) && IsRun(first, steps) && first.global.Some?
    ensures var end := Run(first, steps);
            |AdmittedCalls(end)| as real
            <= first.global.value.burst + Accrued(first.global.value.rate, ForwardSteps(TimesAt(end.log, AtGlobal)))
  {
    InvAlongRun(first, steps);
    AdmittedWithinGlobalBound(first, Run(first, steps));
  }

  lemma AdmittedWithinGlobalBound(first: System, s: System)
    requires Inv(first, s) && first.global.Some? && first.global.value.Valid()
    ensures |AdmittedCalls(s)| as real
            <= first.global.value.burst + Accrued(first.global.value.rate, ForwardSteps(TimesAt(s.log, AtGlobal)))
  {
    ReplayIsBounded(first.global.value, s.global.value, s.log, AtGlobal);
    Smaller(AdmittedCalls(s), PassedCalls(s));
  }

  /** In every interleaving all untracked sources together keep the overflow bucket's bound. */
  lemma {:induction false} OverflowKeepsItsBound(first: System, steps: seq<Step>)
    requires Initial(first) && IsRun(first, steps) && first.shape.Some?
    ensures var end, o := Run(first, steps), first.shape.value.overflow;
            OksAt(end.log, AtOverflow) as real <= o.burst + Accrued(o.rate, ForwardSteps(TimesAt(end.log, AtOverflow)))
  {
    InvAlongRun(first, steps);
    var end := Run(first, steps);
    ReplayIsBounded(first.shape.value.overflow, end.shape.value.overflow, end.log, AtOverflow);
  }

  /**
   In every interleaving each per-source bucket, forgotten ones included, serves one source only and
   keeps the per-source bound over all it ever serves.
   */
  lemma {:induction false} EveryOwnBucketKeepsItsBound(first: System, steps: seq<Step>, id: nat)
    requires Initial(first) && IsRun(first, steps) && id in Run(first, steps).buckets
    ensures var end := Run(first, steps);
            && first.shape.Some? && id in end.births
            && OksAt(end.log, AtOwn(id)) as real
               <= first.shape.value.burst as real
                  + Accrued(first.shape.value.rate, ForwardSteps(TimesAt(end.log, AtOwn(id))))
            && (forall i :: 0 <= i < |end.log| && end.log[i].which == AtOwn(id) ==> end.log[i].call in end.calls)
            && forall i, j :: 0 <= i < |end.log| && 0 <= j < |end.log| &&
                              end.log[i].which == end.log[j].which == AtOwn(id) ==>
                 SameCaller(end.calls[end.log[i].call].source, end.calls[end.log[j].call].source)
  {
    InvAlongRun(first, steps);
    var end := Run(first, steps);
    assert id in end.births.Keys;
    ReplayIsBounded(end.births[id].bucket, end.buckets[id], end.log, AtOwn(id));
    hide Replays, KeyOf;
    forall i, j | 0 <= i < |end.log| && 0 <= j < |end.log| && end.log[i].which == end.log[j].which == AtOwn(id)
      ensures SameCaller(end.calls[end.log[i].call].source, end.calls[end.log[j].call].source) {
      SameKeyIffSameCaller(end.calls[end.log[i].call].source, end.calls[end.log[j].call].source);
    }
  }

  /** The bucket as it was before any call. */
  ghost predicate BornAs(first: System, s: System, which: Which, born: Bucket) {
    match which
    case AtGlobal => first.global == Some(born)
    case AtOverflow => first.shape.Some? && first.shape.value.overflow == born
    case AtOwn(id) => id in s.births && s.births[id].bucket == born
  }

  /**
   In every interleaving each bucket answers exactly: a take succeeds if and only if, counting it, every
   window of the bucket's earlier takes holds by the standing clock of their timestamps.
   */
  lemma {:induction false} EveryTakeIsExact(first: System, steps: seq<Step>, i: nat, born: Bucket)
    requires Initial(first) && IsRun(first, steps) && i < |Run(first, steps).log|
    requires born.Full() && BornAs(first, Run(first, steps), Run(first, steps).log[i].which, born)
    ensures var log := Run(first, steps).log;
            var times := TimesAt(log[..i], log[i].which);
            var clock := StandingClock(born.lastRefill, times + [log[i].at]);
            |clock| == |times| + 1 &&
            (log[i].ok <==> EveryWindowHolds(born, clock[..|times|], clock[|times|]))
  {
    InvAlongRun(first, steps);
    var end := Run(first, steps);
    var which := end.log[i].which;
    hide StandingClock, EveryWindowHolds, Take;
    assert DecidesByPast(born, end.log, which);
    AdmittedIffEveryStandingWindowHolds(born, TimesAt(end.log[..i], which), end.log[i].at);
  }

  // ---------------------------------------------------------------- a call alone

  lemma OneMoreStep(s: System, steps: seq<Step>, step: Step)
    requires IsRun(s, steps) && Enabled(Run(s, steps), step)
    ensures IsRun(s, steps + [step]) && Run(s, steps + [step]) == Apply(Run(s, steps), step)
  {
    assert (steps + [step])[..|steps|] == steps;
  }

  /** The call holds the bucket the route stands for. */
  ghost predicate Routed(s: System, call: nat, route: Route) {
    && call in s.calls && s.calls[call].phase.Holding? && s.shape.Some?
    && Routes(s.shape.value, KeyOf(s.calls[call].source), s.calls[call].phase.own, route)
  }

  /** A take by identity is the take by value, as no other source uses the bucket. */
  lemma TakeOwnRefines(s: System, call: nat, route: Route)
    requires Enabled(s, TakeOwn(call)) && EveryBucketOwned(s) && Routed(s, call, route)
    ensures route.Tracked? ==> route.key in TableOf(s.shape.value, s.buckets).entries
    ensures var t, s' := TableOf(s.shape.value, s.buckets), Apply(s, TakeOwn(call));
            var (taken, ok) := TakeVia(t, route, s.calls[call].at);
            LimiterOf(s') == Limiter(s.global, Some(taken)) && s'.calls[call].phase == Done(true, ok)
  {
    hide Take, EveryBucketOwned;
    var h, s' := s.shape.value, Apply(s, TakeOwn(call));
    var t := TableOf(h, s.buckets);
    OwnedIsBacked(s);
    SizeOfTable(h, s.buckets);
    if route.Tracked? {
      OneSlotEach(s, route.key);
      var b := Take(s.buckets[h.slots[route.key].id], s.calls[call].at).0;
      assert TableOf(h, s'.buckets).entries == t.entries[route.key := t.entries[route.key].(bucket := b)];
    }
  }

  lemma OneSlotEach(s: System, key: string)
    requires EveryBucketOwned(s) && s.shape.Some? && key in s.shape.value.slots
    ensures var slots := s.shape.value.slots;
            forall k :: k in slots && k != key ==> slots[k].id != slots[key].id
  {
    assert forall k :: k in s.shape.value.slots ==> Owns(s, k, s.shape.value.slots[k].id);
  }

  /** The steps a call takes when no other step comes in between. */
  ghost predicate OneCall(steps: seq<Step>, call: nat, id: nat) {
    steps == [TakeGlobal(call)] || steps == [TakeGlobal(call), LookUp(call, id), TakeOwn(call)]
  }

  /** From any state that keeps the invariant, the steps of one call alone are the limiter's Admit. */
  lemma {:induction false} AloneIsAdmitFrom(first: System, s: System, call: nat, id: nat) returns (steps: seq<Step>)
    requires Inv(first, s)
    requires call in s.calls && s.calls[call].phase.Waiting? && id !in s.buckets && id !in s.births
    ensures OneCall(steps, call, id) && IsRun(s, steps) && OnlyCall(s, Run(s, steps), call)
    ensures Run(s, steps).buckets.Keys <= s.buckets.Keys + {id} && Run(s, steps).births.Keys <= s.births.Keys + {id}
    ensures var end := Run(s, steps);
            var (l, verdict) := Admit(LimiterOf(s), s.calls[call].source, s.calls[call].at);
            && LimiterOf(end) == l && end.calls[call].phase.Done?
            && end.calls[call].phase.admitted == verdict.Admits()
  {
    hide IsRun, Run, Take, Lookup, TakeVia, Inv, LookedUp, TableOf;
    NoStepsYet(s);
    OneMoreStep(s, [], TakeGlobal(call));
    steps := [] + [TakeGlobal(call)];
    var s1 := Run(s, steps);
    if s1.calls[call].phase.Passed? {
      StepKeepsInv(first, s, TakeGlobal(call));
      LookUpThenTake(first, s1, call, id);
      hide Apply, Enabled;
      OneMoreStep(s, steps, LookUp(call, id));
      steps := steps + [LookUp(call, id)];
      OneMoreStep(s, steps, TakeOwn(call));
      steps := steps + [TakeOwn(call)];
    }
  }

  lemma {:induction false} LookUpThenTake(first: System, s: System, call: nat, id: nat)
    requires Inv(first, s) && Enabled(s, LookUp(call, id))
    ensures Enabled(Apply(s, LookUp(call, id)), TakeOwn(call))
    ensures var end := Apply(Apply(s, LookUp(call, id)), TakeOwn(call));
            var t, c := TableOf(s.shape.value, s.buckets), s.calls[call];
            var (found, route) := Lookup(t, c.source, c.at);
            && (route.Tracked? ==> route.key in found.entries)
            && var (taken, ok) := TakeVia(found, route, c.at);
               (&& LimiterOf(end) == Limiter(s.global, Some(taken)) && OnlyCall(s, end, call)
                && end.calls[call].phase == Done(true, ok)
                && end.buckets.Keys <= s.buckets.Keys + {id} && end.births.Keys <= s.births.Keys + {id})
  {
    hide Take, Lookup, TakeVia, Inv, LookedUp, TableOf, EveryBucketOwned, WithinCap;
    var route := LookUpAlone(first, s, call, id);
    var s2 := Apply(s, LookUp(call, id));
    StepKeepsInv(first, s, LookUp(call, id));
    InvParts(first, s2);
    TakeOwnRefines(s2, call, route);
  }

  lemma {:induction false} LookUpAlone(first: System, s: System, call: nat, id: nat) returns (route: Route)
    requires Inv(first, s) && Enabled(s, LookUp(call, id))
    ensures var end := Apply(s, LookUp(call, id));
            var t, c := TableOf(s.shape.value, s.buckets), s.calls[call];
            && (LimiterOf(end).table, route) == (Some(Lookup(t, c.source, c.at).0), Lookup(t, c.source, c.at).1)
            && end.global == s.global && OnlyCall(s, end, call)
            && end.buckets.Keys <= s.buckets.Keys + {id} && end.births.Keys <= s.births.Keys + {id}
            && Enabled(end, TakeOwn(call)) && Routed(end, call, route)
  {
    hide Lookup, TableOf, LookUpShape, EveryBucketOwned, Inv;
    var c, h := s.calls[call], s.shape.value;
    InvParts(first, s);
    OwnedIsBacked(s);
    LookUpRefines(h, s.buckets, c.source, c.at, id);
    route := Lookup(TableOf(h, s.buckets), c.source, c.at).1;
    StepKeepsInv(first, s, LookUp(call, id));
    InvParts(first, Apply(s, LookUp(call, id)));
    OwnedIsBacked(Apply(s, LookUp(call, id)));
  }

  /** From any reachable state, the steps of one call with nothing in between are the limiter's Admit. */
  lemma {:induction false} AloneIsAdmit(first: System, past: seq<Step>, call: nat, id: nat) returns (steps: seq<Step>)
    requires Initial(first) && IsRun(first, past)
    requires var s := Run(first, past);
             call in s.calls && s.calls[call].phase.Waiting? && id !in s.buckets && id !in s.births
    ensures past <= steps && OneCall(steps[|past|..], call, id)
    ensures IsRun(first, steps) && OnlyCall(Run(first, past), Run(first, steps), call)
    ensures var s, end := Run(first, past), Run(first, steps);
            var (l, verdict) := Admit(LimiterOf(s), s.calls[call].source, s.calls[call].at);
            && LimiterOf(end) == l && end.calls[call].phase.Done?
            && end.calls[call].phase.admitted == verdict.Admits()
  {
    hide IsRun, Run, Admit, LimiterOf, OnlyCall;
    InvAlongRun(first, past);
    var own := AloneIsAdmitFrom(first, Run(first, past), call, id);
    RunOn(first, past, own);
    steps := past + own;
  }

  lemma {:induction false} RunOn(s: System, past: seq<Step>, more: seq<Step>)
    requires IsRun(s, past) && IsRun(Run(s, past), more)
    ensures IsRun(s, past + more) && Run(s, past + more) == Run(Run(s, past), more)
  {
    if more == [] {
      assert past + more == past;
    } else {
      var init, last := more[..|more| - 1], more[|more| - 1];
      RunOn(s, past, init);
      OneMoreStep(s, past + init, last);
      assert past + more == past + init + [last];
    }
  }

  lemma NoStepsYet(s: System)
    ensures IsRun(s, []) && Run(s, []) == s
  {
  }

  lemma InvParts(first: System, s: System)
    requires Inv(first, s)
    ensures EveryBucketOwned(s) && WithinCap(s)
  {
  }
}
