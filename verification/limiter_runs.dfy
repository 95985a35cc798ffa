/**
 Whole runs of the request limiter: forgetting a source is unobservable, every decision is a
 window condition on the past, the table respects its cap and all untracked sources share
 one bucket's bound.
 */
module LimiterRuns {
  import opened Wrappers
  import opened Sets
  import opened TokenBuckets
  import opened RequestLimiters

  datatype Request = Request(source: string, at: int) {
    function Key(): string { KeyOf(source) }
  }

  function Run(l: Limiter, reqs: seq<Request>): Limiter {
    if reqs == [] then l else Next(Run(l, reqs[..|reqs| - 1]), reqs[|reqs| - 1])
  }

  function Next(l: Limiter, r: Request): Limiter { Admit(l, r.source, r.at).0 }

  function VerdictOn(l: Limiter, r: Request): Verdict { Admit(l, r.source, r.at).1 }

  /** The verdict on the last request of a run. */
  function LastVerdict(l: Limiter, reqs: seq<Request>): Verdict
    requires reqs != []
  {
    VerdictOn(Run(l, reqs[..|reqs| - 1]), reqs[|reqs| - 1])
  }

  function Times(reqs: seq<Request>): seq<int> {
    seq(|reqs|, i requires 0 <= i < |reqs| => reqs[i].at)
  }

  ghost predicate Ordered(start: int, reqs: seq<Request>) {
    NonDecreasing([start] + Times(reqs))
  }

  /** A limiter as newRequestLimiter makes it, with both limits switched on. */
  ghost predicate Fresh(l: Limiter, start: int) {
    && l.global.Some? && l.global.value.Full() && l.global.value.lastRefill == start
    && l.table.Some? && FreshTable(l.table.value)
  }

  ghost predicate FreshTable(t: Table) {
    && t.rate > 0.0 && t.burst > 0 && t.entries == map[] && t.requestCount == 0
    && t.overflow.Full() && t.overflow.rate == t.rate && t.overflow.burst == t.burst as real
  }

  /** Nothing is ever forgotten, or an empty bucket is full again by the time it can be. */
  ghost predicate RetentionRefills(t: Table) {
    t.stateTTL <= 0 || Accrued(t.rate, t.stateTTL + 1) >= t.burst as real
  }

  ghost predicate CapNeverBinds(l: Limiter, reqs: seq<Request>) {
    forall i :: 0 < i <= |reqs| ==> !UsedOverflow(l, reqs[..i])
  }

  predicate UsedOverflow(l: Limiter, reqs: seq<Request>)
    requires reqs != []
  {
    var v := LastVerdict(l, reqs);
    v.PerSource? && v.route == Overflow
  }

  // -------------------------------------------------- the limiter that never forgets

  datatype Remembering = Remembering(global: Bucket, rate: real, burst: int, buckets: map<string, Bucket>)

  function BucketFor(u: Remembering, key: string, now: int): Bucket {
    if key in u.buckets then u.buckets[key] else Bucket(u.rate, u.burst as real, u.burst as real, now)
  }

  /** Whether the call passes the global bucket, and whether it is admitted. */
  function RememberingAdmit(u: Remembering, r: Request): (Remembering, bool, bool) {
    var (g, passed) := Take(u.global, r.at);
    if !passed then (u.(global := g), false, false) else
      var (b, ok) := Take(BucketFor(u, r.Key(), r.at), r.at);
      (u.(global := g, buckets := u.buckets[r.Key() := b]), true, ok)
  }

  function RememberingOf(l: Limiter): Remembering
    requires l.global.Some? && l.table.Some?
  {
    Remembering(l.global.value, l.table.value.rate, l.table.value.burst, map[])
  }

  function RememberingRun(u: Remembering, reqs: seq<Request>): Remembering {
    if reqs == [] then u else
      RememberingAdmit(RememberingRun(u, reqs[..|reqs| - 1]), reqs[|reqs| - 1]).0
  }

  /** The bucket has had time to fill completely by `now`. */
  ghost predicate Replenished(b: Bucket, now: int) {
    b.lastRefill < now && b.tokens + Accrued(b.rate, now - b.lastRefill) >= b.burst
  }

  ghost predicate SourceBucket(t: Table, b: Bucket, now: int) {
    b.Valid() && b.rate == t.rate && b.burst == t.burst as real && b.lastRefill <= now
  }

  /**
   The bisimulation: tracked sources have the very same bucket, last seen at its last refill;
   forgotten sources have a bucket that is full again.
   */
  ghost predicate Agree(l: Limiter, u: Remembering, now: int) {
    && l.global == Some(u.global) && l.table.Some?
    && var t := l.table.value;
       && t.rate == u.rate > 0.0 && t.burst == u.burst > 0 && RetentionRefills(t)
       && (forall k :: k in t.entries ==>
             && k in u.buckets && t.entries[k].bucket == u.buckets[k]
             && t.entries[k].lastSeen == u.buckets[k].lastRefill)
       && (forall k :: k in u.buckets ==> SourceBucket(t, u.buckets[k], now))
       && (forall k :: k in u.buckets && k !in t.entries ==> Replenished(u.buckets[k], now))
  }

  lemma ReplenishedStays(b: Bucket, now: int, later: int)
    requires b.Valid() && Replenished(b, now) && now <= later
    ensures Replenished(b, later)
  {
    AccruedGrows(b.rate, now - b.lastRefill, later - b.lastRefill);
  }

  /** Time passing keeps the agreement. */
  lemma {:induction false} AgreeLater(l: Limiter, u: Remembering, now: int, later: int)
    requires Agree(l, u, now) && now <= later
    ensures Agree(l, u, later)
  {
    var t := l.table.value;
    forall k | k in u.buckets && k !in t.entries
      ensures Replenished(u.buckets[k], later)
    {
      ReplenishedStays(u.buckets[k], now, later);
    }
  }

  /** Evicting a source silent for longer than the retention time keeps the agreement. */
  lemma AgreeAfterPurge(l: Limiter, u: Remembering, now: int)
    requires Agree(l, u, now)
    ensures Agree(l.(table := Some(Purged(l.table.value, now))), u, now)
  {
    var t := l.table.value;
    var p := Purged(t, now);
    forall k | k in u.buckets && k !in p.entries
      ensures Replenished(u.buckets[k], now)
    {
      if k in t.entries {
        var b := u.buckets[k];
        AccruedGrows(b.rate, t.stateTTL + 1, now - b.lastRefill);
      }
    }
  }

  lemma AgreeAfterCount(l: Limiter, u: Remembering, now: int)
    requires Agree(l, u, now)
    ensures Agree(l.(table := Some(Counted(l.table.value, now))), u, now)
  {
    var t := l.table.value;
    AgreeAfterPurge(l.(table := Some(t.(requestCount := t.requestCount + 1))), u, now);
  }

  lemma AgreeAfterRoom(l: Limiter, u: Remembering, now: int)
    requires Agree(l, u, now)
    ensures Agree(l.(table := Some(Room(l.table.value, now))), u, now)
  {
    AgreeAfterPurge(l, u, now);
  }

  /** A tracked source's own call keeps the agreement and gets the same answer. */
  lemma AgreeAfterTracked(l: Limiter, u: Remembering, key: string, now: int)
    requires Agree(l, u, now) && key in l.table.value.entries
    ensures var t := l.table.value;
            var seen := t.(entries := t.entries[key := t.entries[key].(lastSeen := now)]);
            var (taken, ok) := TakeVia(seen, Tracked(key), now);
            var (b, ok') := Take(u.buckets[key], now);
            ok == ok' && Agree(l.(table := Some(taken)), u.(buckets := u.buckets[key := b]), now)
  {
    TakeKeeps(u.buckets[key], now);
  }

  /** So does a source the table does not hold: its forgotten bucket and a new one are both full. */
  lemma AgreeAfterNew(l: Limiter, u: Remembering, key: string, now: int)
    requires Agree(l, u, now) && key !in l.table.value.entries
    requires |l.table.value.entries| < l.table.value.maxSources
    ensures var t := l.table.value;
            var newcomer := NewBucket(t.rate, t.burst, now).value;
            var added := t.(entries := t.entries[key := Entry(newcomer, now)]);
            var (taken, ok) := TakeVia(added, Tracked(key), now);
            var (b, ok') := Take(BucketFor(u, key, now), now);
            ok == ok' && Agree(l.(table := Some(taken)), u.(buckets := u.buckets[key := b]), now)
  {
    var t := l.table.value;
    var newcomer := NewBucket(t.rate, t.burst, now).value;
    ForgottenIsFull(l, u, key, now);
    TakeKeeps(newcomer, now);
    hide Take, Refill, Accrued;
  }

  lemma ForgottenIsFull(l: Limiter, u: Remembering, key: string, now: int)
    requires Agree(l, u, now) && key !in l.table.value.entries
    ensures Take(BucketFor(u, key, now), now) == Take(NewBucket(u.rate, u.burst, now).value, now)
  {
    assert Refill(BucketFor(u, key, now), now) == NewBucket(u.rate, u.burst, now).value;
  }

  /** One call: same verdict, agreement kept. */
  lemma {:induction false} AgreeStep(l: Limiter, u: Remembering, before: int, r: Request)
    requires Agree(l, u, before) && before <= r.at
    requires VerdictOn(l, r).PerSource? ==> VerdictOn(l, r).route != Overflow
    ensures var (u', passed, ok) := RememberingAdmit(u, r);
            var v := VerdictOn(l, r);
            && Agree(Next(l, r), u', r.at)
            && (v.RefusedGlobally? <==> !passed) && v.Admits() == ok
            && (passed ==> v == PerSource(Tracked(r.Key()), ok))
  {
    AgreeLater(l, u, before, r.at);
    var (g, passed) := Take(u.global, r.at);
    var l1, u1 := l.(global := Some(g)), u.(global := g);
    if passed {
      AgreeAfterCount(l1, u1, r.at);
      var l2 := l1.(table := Some(Counted(l1.table.value, r.at)));
      if r.Key() in l2.table.value.entries {
        AgreeAfterTracked(l2, u1, r.Key(), r.at);
      } else {
        AgreeAfterRoom(l2, u1, r.at);
        var l3 := l2.(table := Some(Room(l2.table.value, r.at)));
        AgreeAfterNew(l3, u1, r.Key(), r.at);
      }
    }
  }

  lemma OrderedPrefix(start: int, reqs: seq<Request>)
    requires reqs != [] && Ordered(start, reqs)
    ensures var past := reqs[..|reqs| - 1];
            && Ordered(start, past)
            && Times(reqs) == Times(past) + [reqs[|reqs| - 1].at]
            && Latest(start, Times(past)) <= reqs[|reqs| - 1].at
  {
    var past := reqs[..|reqs| - 1];
    var all := [start] + Times(reqs);
    assert [start] + Times(past) == all[..|reqs|];
    assert Latest(start, Times(past)) == all[|reqs| - 1] && all[|reqs|] == reqs[|reqs| - 1].at;
  }

  lemma CapPrefix(l: Limiter, reqs: seq<Request>)
    requires reqs != [] && CapNeverBinds(l, reqs)
    ensures CapNeverBinds(l, reqs[..|reqs| - 1]) && !UsedOverflow(l, reqs)
  {
    var past := reqs[..|reqs| - 1];
    assert reqs == reqs[..|reqs|];
    forall i | 0 < i <= |past| ensures !UsedOverflow(l, past[..i]) {
      assert past[..i] == reqs[..i];
    }
  }

  lemma {:induction false} AgreeAlongRun(l: Limiter, start: int, reqs: seq<Request>)
    requires Fresh(l, start) && RetentionRefills(l.table.value)
    requires Ordered(start, reqs) && CapNeverBinds(l, reqs)
    ensures Agree(Run(l, reqs), RememberingRun(RememberingOf(l), reqs), Latest(start, Times(reqs)))
  {
    if reqs != [] {
      OrderedPrefix(start, reqs);
      CapPrefix(l, reqs);
      var past, r := reqs[..|reqs| - 1], reqs[|reqs| - 1];
      AgreeAlongRun(l, start, past);
      AgreeStep(Run(l, past), RememberingRun(RememberingOf(l), past), Latest(start, Times(past)), r);
    }
  }

  /** The last answer of a run is the one the limiter that never forgets gives. */
  ghost predicate SameAnswer(l: Limiter, reqs: seq<Request>)
    requires l.global.Some? && l.table.Some? && reqs != []
  {
    LastVerdict(l, reqs).Admits() ==
    RememberingAdmit(RememberingRun(RememberingOf(l), reqs[..|reqs| - 1]), reqs[|reqs| - 1]).2
  }

  /**
   Forgetting is unobservable. With ordered timestamps, a retention time long enough to refill a
   bucket, and a cap that never binds, the evicting limiter answers every call exactly as the
   limiter that never forgets a source.
   */
  lemma ForgettingIsUnobservable(l: Limiter, start: int, reqs: seq<Request>)
    requires Fresh(l, start) && RetentionRefills(l.table.value)
    requires reqs != [] && Ordered(start, reqs) && CapNeverBinds(l, reqs)
    ensures SameAnswer(l, reqs)
  {
    OrderedPrefix(start, reqs);
    CapPrefix(l, reqs);
    var past, r := reqs[..|reqs| - 1], reqs[|reqs| - 1];
    AgreeAlongRun(l, start, past);
    AgreeStep(Run(l, past), RememberingRun(RememberingOf(l), past), Latest(start, Times(past)), r);
  }

  // -------------------------------------------------- decisions as window conditions

  /** How many requests at or after `since` passed the global bucket. */
  function PassedSince(l: Limiter, reqs: seq<Request>, since: int): nat {
    if reqs == [] then 0 else
      PassedSince(l, reqs[..|reqs| - 1], since) +
      if since <= reqs[|reqs| - 1].at && !LastVerdict(l, reqs).RefusedGlobally? then 1 else 0
  }

  /** How many requests of one source at or after `since` were admitted. */
  function SourceAdmittedSince(l: Limiter, reqs: seq<Request>, source: string, since: int): nat {
    if reqs == [] then 0 else
      var r := reqs[|reqs| - 1];
      SourceAdmittedSince(l, reqs[..|reqs| - 1], source, since) +
      if since <= r.at && SameCaller(r.source, source) && LastVerdict(l, reqs).Admits() then 1 else 0
  }

  /** The times at which one source reached its own bucket. */
  function SourceTimes(l: Limiter, reqs: seq<Request>, key: string): seq<int> {
    if reqs == [] then [] else
      var r := reqs[|reqs| - 1];
      SourceTimes(l, reqs[..|reqs| - 1], key) +
      if r.Key() == key && !LastVerdict(l, reqs).RefusedGlobally? then [r.at] else []
  }

  /** The global bucket replays every call, whatever the sources' buckets then answer. */
  lemma {:induction false} GlobalBucketAlongRun(l: Limiter, reqs: seq<Request>)
    requires l.global.Some?
    ensures Run(l, reqs).global == Some(After(l.global.value, Times(reqs)))
    ensures forall since :: PassedSince(l, reqs, since) == AdmittedSince(l.global.value, Times(reqs), since)
  {
    if reqs != [] {
      var past, times := reqs[..|reqs| - 1], Times(reqs);
      GlobalBucketAlongRun(l, past);
      assert times[..|times| - 1] == Times(past);
      var v := LastVerdict(l, reqs);
      assert v.RefusedGlobally? <==> !Take(After(l.global.value, Times(past)), reqs[|reqs| - 1].at).1;
    }
  }

  lemma {:induction false} SourceTimesOrdered(l: Limiter, start: int, reqs: seq<Request>, key: string)
    requires Ordered(start, reqs)
    ensures NonDecreasing([start] + SourceTimes(l, reqs, key))
    ensures Latest(start, SourceTimes(l, reqs, key)) <= Latest(start, Times(reqs))
  {
    if reqs != [] {
      OrderedPrefix(start, reqs);
      var past, r := reqs[..|reqs| - 1], reqs[|reqs| - 1];
      SourceTimesOrdered(l, start, past, key);
      var before := [start] + SourceTimes(l, past, key);
      assert before[|before| - 1] == Latest(start, SourceTimes(l, past, key));
      var times := SourceTimes(l, reqs, key);
      if times == SourceTimes(l, past, key) + [r.at] {
        assert [start] + times == before + [r.at];
      } else {
        assert times == SourceTimes(l, past, key);
      }
    }
  }

  /** A bucket that was new at its source's first call. */
  function FirstBucket(t: Table, times: seq<int>): Bucket
    requires times != []
  {
    Bucket(t.rate, t.burst as real, t.burst as real, times[0])
  }

  /** The last call of a run, as the remembering limiter sees it. */
  lemma LastCall(l: Limiter, start: int, reqs: seq<Request>)
    requires Fresh(l, start) && RetentionRefills(l.table.value)
    requires reqs != [] && Ordered(start, reqs) && CapNeverBinds(l, reqs)
    ensures var past, r := reqs[..|reqs| - 1], reqs[|reqs| - 1];
            var u := RememberingRun(RememberingOf(l), past);
            var (b, ok) := Take(BucketFor(u, r.Key(), r.at), r.at);
            var u' := RememberingRun(RememberingOf(l), reqs);
            && u.rate == l.table.value.rate && u.burst == l.table.value.burst
            && (LastVerdict(l, reqs).RefusedGlobally? ==> u'.buckets == u.buckets)
            && (!LastVerdict(l, reqs).RefusedGlobally? ==>
                  LastVerdict(l, reqs).Admits() == ok && u'.buckets == u.buckets[r.Key() := b])
  {
    OrderedPrefix(start, reqs);
    CapPrefix(l, reqs);
    var past, r := reqs[..|reqs| - 1], reqs[|reqs| - 1];
    AgreeAlongRun(l, start, past);
    TableHoldsOnlySeenSources(l, past);
    AgreeStep(Run(l, past), RememberingRun(RememberingOf(l), past), Latest(start, Times(past)), r);
  }

  /** In the remembering limiter each bucket is the replay of its source's own calls. */
  lemma {:induction false} SourceBucketAlongRun(l: Limiter, start: int, reqs: seq<Request>, key: string)
    requires Fresh(l, start) && RetentionRefills(l.table.value)
    requires Ordered(start, reqs) && CapNeverBinds(l, reqs)
    ensures var times := SourceTimes(l, reqs, key);
            var u := RememberingRun(RememberingOf(l), reqs);
            && (key in u.buckets <==> times != [])
            && (times != [] ==> u.buckets[key] == After(FirstBucket(l.table.value, times), times))
  {
    if reqs != [] {
      OrderedPrefix(start, reqs);
      CapPrefix(l, reqs);
      var past, r := reqs[..|reqs| - 1], reqs[|reqs| - 1];
      SourceBucketAlongRun(l, start, past, key);
      LastCall(l, start, reqs);
      var before, times := SourceTimes(l, past, key), SourceTimes(l, reqs, key);
      if times != before {
        assert times[..|times| - 1] == before;
      }
    }
  }

  /** Admissions counted over the run are admissions of that replay. */
  lemma {:induction false} SourceCountAlongRun(l: Limiter, start: int, reqs: seq<Request>, source: string, since: int)
    requires Fresh(l, start) && RetentionRefills(l.table.value)
    requires Ordered(start, reqs) && CapNeverBinds(l, reqs)
    ensures var times := SourceTimes(l, reqs, KeyOf(source));
            SourceAdmittedSince(l, reqs, source, since) ==
            if times == [] then 0 else AdmittedSince(FirstBucket(l.table.value, times), times, since)
  {
    if reqs != [] {
      OrderedPrefix(start, reqs);
      CapPrefix(l, reqs);
      var past, r := reqs[..|reqs| - 1], reqs[|reqs| - 1];
      var key := KeyOf(source);
      SameKeyIffSameCaller(r.source, source);
      SourceCountAlongRun(l, start, past, source, since);
      SourceBucketAlongRun(l, start, past, key);
      LastCall(l, start, reqs);
      hide Admit, Fresh, Ordered, CapNeverBinds, RetentionRefills;
      var before, times := SourceTimes(l, past, key), SourceTimes(l, reqs, key);
      if times != before {
        assert times[..|times| - 1] == before;
      }
    }
  }

  /** One more globally passed call keeps every window ending now within the global limit. */
  ghost predicate GlobalWindowsHold(l: Limiter, reqs: seq<Request>, now: int)
    requires l.global.Some?
  {
    forall since :: since <= now ==>
      PassedSince(l, reqs, since) as real + 1.0
      <= l.global.value.burst + Accrued(l.global.value.rate, now - since)
  }

  /** One more admitted call of this source keeps every window ending now within the per-source limit. */
  ghost predicate SourceWindowsHold(l: Limiter, reqs: seq<Request>, source: string, now: int)
    requires l.table.Some?
  {
    forall since :: since <= now ==>
      SourceAdmittedSince(l, reqs, source, since) as real + 1.0
      <= l.table.value.burst as real + Accrued(l.table.value.rate, now - since)
  }

  /**
   The whole limiter as a condition on its past: a call is admitted if and only if it keeps every
   window of globally passed calls within the global limit, and every window of its own source's
   admitted calls within the per-source one.
   */
  lemma AdmittedIffBothWindowsHold(l: Limiter, start: int, reqs: seq<Request>, r: Request)
    requires Fresh(l, start) && RetentionRefills(l.table.value)
    requires Ordered(start, reqs + [r]) && CapNeverBinds(l, reqs + [r])
    ensures VerdictOn(Run(l, reqs), r).Admits() <==>
            GlobalWindowsHold(l, reqs, r.at) && SourceWindowsHold(l, reqs, r.source, r.at)
  {
    var all := reqs + [r];
    assert all[..|all| - 1] == reqs;
    OrderedPrefix(start, all);
    CapPrefix(l, all);
    AdmittedIffBothBuckets(l, start, reqs, r);
    GlobalWindow(l, start, reqs, r);
    SourceWindow(l, start, reqs, r);
  }

  lemma {:induction false} AdmittedIffBothBuckets(l: Limiter, start: int, reqs: seq<Request>, r: Request)
    requires Fresh(l, start) && RetentionRefills(l.table.value)
    requires Ordered(start, reqs) && CapNeverBinds(l, reqs) && Latest(start, Times(reqs)) <= r.at
    requires var v := VerdictOn(Run(l, reqs), r); v.PerSource? ==> v.route != Overflow
    ensures var u := RememberingRun(RememberingOf(l), reqs);
            && Run(l, reqs).global.Some?
            && u.rate == l.table.value.rate && u.burst == l.table.value.burst
            && (VerdictOn(Run(l, reqs), r).Admits() <==>
                Take(Run(l, reqs).global.value, r.at).1 && Take(BucketFor(u, r.Key(), r.at), r.at).1)
  {
    AgreeAlongRun(l, start, reqs);
    TableHoldsOnlySeenSources(l, reqs);
    AgreeStep(Run(l, reqs), RememberingRun(RememberingOf(l), reqs), Latest(start, Times(reqs)), r);
  }

  lemma GlobalWindow(l: Limiter, start: int, reqs: seq<Request>, r: Request)
    requires l.global.Some? && l.global.value.Full() && l.global.value.lastRefill == start
    requires Ordered(start, reqs + [r]) && Ordered(start, reqs)
    requires Times(reqs + [r]) == Times(reqs) + [r.at]
    ensures Run(l, reqs).global.Some?
    ensures Take(Run(l, reqs).global.value, r.at).1 <==>
            GlobalWindowsHold(l, reqs, r.at)
  {
    GlobalBucketAlongRun(l, reqs);
    assert [start] + Times(reqs) + [r.at] == [start] + Times(reqs + [r]);
    AdmittedIffEveryWindowHolds(l.global.value, Times(reqs), r.at);
  }

  lemma SourceWindow(l: Limiter, start: int, reqs: seq<Request>, r: Request)
    requires Fresh(l, start) && RetentionRefills(l.table.value)
    requires Ordered(start, reqs) && CapNeverBinds(l, reqs) && Latest(start, Times(reqs)) <= r.at
    requires var u := RememberingRun(RememberingOf(l), reqs);
             u.rate == l.table.value.rate && u.burst == l.table.value.burst
    ensures var u := RememberingRun(RememberingOf(l), reqs);
            Take(BucketFor(u, r.Key(), r.at), r.at).1 <==>
            SourceWindowsHold(l, reqs, r.source, r.at)
  {
    SourceBucketAlongRun(l, start, reqs, r.Key());
    SourceWindowsMatch(l, start, reqs, r.source, r.at);
    var times := SourceTimes(l, reqs, r.Key());
    if times == [] {
      EmptyPastHolds(l, reqs, r.source, r.at);
    } else {
      SourceTimesOrdered(l, start, reqs, r.Key());
      FromFirst(start, times, r.at);
      AdmittedIffEveryWindowHolds(FirstBucket(l.table.value, times), times, r.at);
    }
  }

  lemma FromFirst(start: int, times: seq<int>, now: int)
    requires times != [] && NonDecreasing([start] + times) && Latest(start, times) <= now
    ensures NonDecreasing([times[0]] + times + [now])
  {
    var a := [start] + times;
    assert forall i :: 0 <= i < |times| ==> times[i] == a[i + 1];
  }

  lemma SourceWindowsMatch(l: Limiter, start: int, reqs: seq<Request>, source: string, now: int)
    requires Fresh(l, start) && RetentionRefills(l.table.value)
    requires Ordered(start, reqs) && CapNeverBinds(l, reqs)
    ensures var times := SourceTimes(l, reqs, KeyOf(source));
            if times == [] then forall since :: SourceAdmittedSince(l, reqs, source, since) == 0
            else SourceWindowsHold(l, reqs, source, now) <==>
                 EveryWindowHolds(FirstBucket(l.table.value, times), times, now)
  {
    var times := SourceTimes(l, reqs, KeyOf(source));
    forall since ensures SourceAdmittedSince(l, reqs, source, since) ==
                         if times == [] then 0
                         else AdmittedSince(FirstBucket(l.table.value, times), times, since) {
      SourceCountAlongRun(l, start, reqs, source, since);
    }
  }

  lemma EmptyPastHolds(l: Limiter, reqs: seq<Request>, source: string, now: int)
    requires l.table.Some? && l.table.value.rate > 0.0 && l.table.value.burst > 0
    requires forall s :: SourceAdmittedSince(l, reqs, source, s) == 0
    ensures SourceWindowsHold(l, reqs, source, now)
  {
    forall since | since <= now
      ensures SourceAdmittedSince(l, reqs, source, since) as real + 1.0
              <= l.table.value.burst as real + Accrued(l.table.value.rate, now - since)
    {
      AccruedGrows(l.table.value.rate, 0, now - since);
    }
  }

  // -------------------------------------------------- cap and overflow, for any timestamps

  function Keys(reqs: seq<Request>): set<string> {
    set i | 0 <= i < |reqs| :: reqs[i].Key()
  }

  ghost predicate SameSettings(t: Table, t': Table) {
    t'.rate == t.rate && t'.burst == t.burst && t'.stateTTL == t.stateTTL && t'.maxSources == t.maxSources
  }

  lemma PurgedShrinks(t: Table, now: int)
    ensures Purged(t, now).entries.Keys <= t.entries.Keys && SameSettings(t, Purged(t, now))
    ensures |Purged(t, now).entries| <= |t.entries|
  {
    Smaller(Purged(t, now).entries.Keys, t.entries.Keys);
  }

  lemma LookupAddsOnlyCaller(t: Table, source: string, now: int)
    ensures var (found, route) := Lookup(t, source, now);
            && SameSettings(t, found)
            && found.entries.Keys <= t.entries.Keys + {KeyOf(source)}
            && (route.Tracked? ==> route.key in found.entries)
            && (|t.entries| <= t.maxSources ==> |found.entries| <= t.maxSources)
            && (route == Overflow && t.rate > 0.0 && t.burst > 0 ==>
                  KeyOf(source) !in found.entries && |found.entries| >= t.maxSources)
  {
    PurgedShrinks(t.(requestCount := t.requestCount + 1), now);
    var c := Counted(t, now);
    PurgedShrinks(c, now);
    hide Purged;
    var key, room := KeyOf(source), Room(c, now);
    if key in c.entries {
      assert c.entries[key := c.entries[key].(lastSeen := now)].Keys == c.entries.Keys;
    }
  }

  lemma TableStep(l: Limiter, r: Request)
    requires l.table.Some?
    ensures Next(l, r).table.Some? && SameSettings(l.table.value, Next(l, r).table.value)
    ensures Next(l, r).table.value.entries.Keys <= l.table.value.entries.Keys + {r.Key()}
    ensures |l.table.value.entries| <= l.table.value.maxSources ==>
              |Next(l, r).table.value.entries| <= l.table.value.maxSources
  {
    LookupAddsOnlyCaller(l.table.value, r.source, r.at);
    var (found, route) := Lookup(l.table.value, r.source, r.at);
    assert TakeVia(found, route, r.at).0.entries.Keys == found.entries.Keys;
    assert |TakeVia(found, route, r.at).0.entries| == |found.entries|;
  }

  lemma {:induction false} TableHoldsOnlySeenSources(l: Limiter, reqs: seq<Request>)
    requires l.table.Some? && l.table.value.entries == map[]
    ensures Run(l, reqs).table.Some? && SameSettings(l.table.value, Run(l, reqs).table.value)
    ensures Run(l, reqs).table.value.entries.Keys <= Keys(reqs)
  {
    if reqs != [] {
      var past, r := reqs[..|reqs| - 1], reqs[|reqs| - 1];
      TableHoldsOnlySeenSources(l, past);
      TableStep(Run(l, past), r);
      KeysOfPrefix(reqs, |past|);
    }
  }

  lemma KeysOfPrefix(reqs: seq<Request>, n: nat)
    requires n < |reqs|
    ensures Keys(reqs[..n]) + {reqs[n].Key()} <= Keys(reqs)
  {
    assert forall j :: 0 <= j < n ==> reqs[..n][j] == reqs[j];
  }

  /** The sources of a run, the anonymous ones under one name. */
  function Callers(reqs: seq<Request>): set<string> {
    set i | 0 <= i < |reqs| :: if reqs[i].source == "" then "unknown" else reqs[i].source
  }

  /** A caller can rule the cap out beforehand: no more distinct sources than the table may hold. */
  lemma FewSourcesNeverOverflow(l: Limiter, start: int, reqs: seq<Request>)
    requires Fresh(l, start) && |Callers(reqs)| <= l.table.value.maxSources
    ensures CapNeverBinds(l, reqs)
  {
    KeysAreCallers(reqs);
    hide Lookup, Keys, Callers;
    forall i | 0 < i <= |reqs| ensures !UsedOverflow(l, reqs[..i]) {
      var past, r := reqs[..i - 1], reqs[i - 1];
      assert reqs[..i][..i - 1] == past;
      TableHoldsOnlySeenSources(l, past);
      KeysOfPrefix(reqs, i - 1);
      var t := Run(l, past).table.value;
      LookupAddsOnlyCaller(t, r.source, r.at);
      var (found, route) := Lookup(t, r.source, r.at);
      if route == Overflow {
        OneMoreThanFits(found.entries.Keys, r.Key(), Keys(reqs));
      }
    }
  }

  lemma KeysAreCallers(reqs: seq<Request>)
    ensures Keys(reqs) == Callers(reqs)
  {
  }

  lemma OneMoreThanFits(held: set<string>, key: string, all: set<string>)
    requires key !in held && held + {key} <= all
    ensures |held| < |all|
  {
    assert |held + {key}| == |held| + 1;
    Smaller(held + {key}, all);
  }

  /** The table never holds more than maxSources sources. */
  lemma {:induction false} TableNeverExceedsCap(l: Limiter, reqs: seq<Request>)
    requires l.table.Some? && |l.table.value.entries| <= l.table.value.maxSources
    ensures Run(l, reqs).table.Some?
    ensures Run(l, reqs).table.value.maxSources == l.table.value.maxSources
    ensures |Run(l, reqs).table.value.entries| <= l.table.value.maxSources
  {
    if reqs != [] {
      var past, r := reqs[..|reqs| - 1], reqs[|reqs| - 1];
      TableNeverExceedsCap(l, past);
      TableStep(Run(l, past), r);
    }
  }

  /** The times of the calls that were sent to the overflow bucket. */
  function OverflowTimes(l: Limiter, reqs: seq<Request>): seq<int> {
    if reqs == [] then [] else
      OverflowTimes(l, reqs[..|reqs| - 1]) + if UsedOverflow(l, reqs) then [reqs[|reqs| - 1].at] else []
  }

  /** How many calls of untracked sources were admitted. */
  function OverflowAdmitted(l: Limiter, reqs: seq<Request>): nat {
    if reqs == [] then 0 else
      OverflowAdmitted(l, reqs[..|reqs| - 1]) +
      if UsedOverflow(l, reqs) && LastVerdict(l, reqs).Admits() then 1 else 0
  }

  lemma OverflowStep(l: Limiter, r: Request)
    requires l.table.Some?
    ensures var v, o, next := VerdictOn(l, r), l.table.value.overflow, Next(l, r).table;
            && next.Some?
            && next.value.overflow == (if v.PerSource? && v.route == Overflow then Take(o, r.at).0 else o)
            && (v.PerSource? && v.route == Overflow ==> v.ok == Take(o, r.at).1)
  {
    var t := l.table.value;
    assert Counted(t, r.at).overflow == t.overflow;
    assert Room(Counted(t, r.at), r.at).overflow == t.overflow;
  }

  lemma {:induction false} OverflowBucketAlongRun(l: Limiter, reqs: seq<Request>)
    requires l.table.Some?
    ensures Run(l, reqs).table.Some?
    ensures Run(l, reqs).table.value.overflow == After(l.table.value.overflow, OverflowTimes(l, reqs))
    ensures OverflowAdmitted(l, reqs) == AdmittedCount(l.table.value.overflow, OverflowTimes(l, reqs))
  {
    if reqs != [] {
      var past, r := reqs[..|reqs| - 1], reqs[|reqs| - 1];
      OverflowBucketAlongRun(l, past);
      OverflowStep(Run(l, past), r);
      var times := OverflowTimes(l, reqs);
      if UsedOverflow(l, reqs) {
        assert times[..|times| - 1] == OverflowTimes(l, past) && times[|times| - 1] == r.at;
      } else {
        assert times == OverflowTimes(l, past);
      }
    }
  }

  /** All untracked sources together obey one bucket's bound, whatever their timestamps. */
  lemma UntrackedSourcesShareOneBound(l: Limiter, reqs: seq<Request>)
    requires l.table.Some? && l.table.value.overflow.Valid()
    ensures var o := l.table.value.overflow;
            OverflowAdmitted(l, reqs) as real <= o.burst + Accrued(o.rate, ForwardSteps(OverflowTimes(l, reqs)))
  {
    OverflowBucketAlongRun(l, reqs);
    AdmissionsBoundedByForwardSteps(l.table.value.overflow, OverflowTimes(l, reqs));
  }

  // ---------------------------------------------------------------- when a source is left untracked

  /** The tracked sources the purge would keep at this time. */
  function LiveSources(t: Table, now: int): set<string> {
    set k | k in t.entries && (t.stateTTL <= 0 || now - t.entries[k].lastSeen <= t.stateTTL)
  }

  /** A source the table does not hold overflows iff the live sources fill the cap, and else gets a full bucket. */
  lemma OverflowsIffLiveSourcesFillTheCap(t: Table, source: string, now: int)
    requires t.rate > 0.0 && t.burst > 0 && KeyOf(source) !in t.entries
    ensures Lookup(t, source, now).1 == Overflow <==> |LiveSources(t, now)| >= t.maxSources
    ensures Lookup(t, source, now).1 != Overflow ==>
              var e, full := Lookup(t, source, now).0.entries, Bucket(t.rate, t.burst as real, t.burst as real, now);
              KeyOf(source) in e && e[KeyOf(source)] == Entry(full, now)
  {
    var counted := t.(requestCount := t.requestCount + 1);
    assert Purged(t, now).entries.Keys == Purged(counted, now).entries.Keys == LiveSources(t, now);
    assert Purged(Purged(counted, now), now).entries == Purged(counted, now).entries;
    Smaller(LiveSources(t, now), t.entries.Keys);
    assert |Purged(t, now).entries.Keys| == |LiveSources(t, now)|;
  }

  /** A tracked source whose entry is live keeps its bucket and is seen now, whatever else is purged. */
  lemma LiveSourceKeepsItsBucket(t: Table, source: string, now: int)
    requires KeyOf(source) in LiveSources(t, now)
    ensures var (found, route) := Lookup(t, source, now);
            && route == Tracked(KeyOf(source)) && KeyOf(source) in found.entries
            && found.entries[KeyOf(source)] == Entry(t.entries[KeyOf(source)].bucket, now)
  {
  }

  /**
   Which sources a call leaves in the table: every 256th call, and a call that finds it full of others,
   forgets the expired ones; any other call forgets none. The caller is there unless it overflows.
   */
  lemma ForgetsOnlyWhenDue(t: Table, source: string, now: int)
    requires t.rate > 0.0 && t.burst > 0
    ensures var (found, route) := Lookup(t, source, now);
            var due := (t.requestCount + 1) % 256 == 0 ||
                       (KeyOf(source) !in t.entries && |t.entries| >= t.maxSources);
            && found.requestCount == t.requestCount + 1
            && found.entries.Keys == (if due then LiveSources(t, now) else t.entries.Keys) +
                                     (if route == Overflow then {} else {KeyOf(source)})
  {
    hide LiveSources, KeyOf, Counted, Added;
    var key, c := KeyOf(source), Counted(t, now);
    CountedKeys(t, now);
    if key in c.entries {
      assert c.entries[key := c.entries[key].(lastSeen := now)].Keys == c.entries.Keys;
    } else {
      AddedKeys(c, key, now);
    }
  }

  lemma CountedKeys(t: Table, now: int)
    ensures var c, due := Counted(t, now), (t.requestCount + 1) % 256 == 0;
            && c == t.(entries := c.entries, requestCount := t.requestCount + 1)
            && c.entries.Keys == (if due then LiveSources(t, now) else t.entries.Keys)
            && (!due ==> c.entries == t.entries) && LiveSources(c, now) == LiveSources(t, now)
            && LiveSources(t, now) <= t.entries.Keys
  {
    var counted := t.(requestCount := t.requestCount + 1);
    PurgedIsLive(counted, now);
    LiveOfPurged(counted, now);
    assert LiveSources(counted, now) == LiveSources(t, now);
    hide Purged;
  }

  lemma AddedKeys(c: Table, key: string, now: int)
    requires c.rate > 0.0 && c.burst > 0 && key !in c.entries
    ensures var (added, route) := Added(c, key, now);
            && added.requestCount == c.requestCount
            && added.entries.Keys == (if |c.entries| >= c.maxSources then LiveSources(c, now) else c.entries.Keys) +
                                     (if route == Overflow then {} else {key})
  {
    PurgedIsLive(c, now);
    hide LiveSources;
  }

  lemma PurgedIsLive(t: Table, now: int)
    ensures Purged(t, now).entries.Keys == LiveSources(t, now)
    ensures Purged(t, now) == t.(entries := Purged(t, now).entries)
  {
  }

  lemma LiveOfPurged(t: Table, now: int)
    ensures LiveSources(Purged(t, now), now) == LiveSources(t, now)
  {
  }

  // ---------------------------------------------------------------- with one limit switched off

  /** Without per-source limits a call is admitted iff every global window holds. */
  lemma {:induction false} GlobalLimitAlone(l: Limiter, start: int, reqs: seq<Request>, r: Request)
    requires l.table.None? && l.global.Some? && l.global.value.Full() && l.global.value.lastRefill == start
    requires Ordered(start, reqs + [r])
    ensures VerdictOn(Run(l, reqs), r).Admits() <==> GlobalWindowsHold(l, reqs, r.at)
  {
    var all := reqs + [r];
    assert all[..|reqs|] == reqs;
    OrderedPrefix(start, all);
    GlobalWindow(l, start, reqs, r);
    NoTableEver(l, reqs);
  }

  lemma {:induction false} NoTableEver(l: Limiter, reqs: seq<Request>)
    requires l.table.None?
    ensures Run(l, reqs).table.None? && Run(l, reqs).global.Some? == l.global.Some?
  {
    if reqs != [] {
      NoTableEver(l, reqs[..|reqs| - 1]);
    }
  }

  /** Without either limit every call is admitted. */
  lemma NoLimitAdmitsAll(l: Limiter, reqs: seq<Request>, r: Request)
    requires l.table.None? && l.global.None?
    ensures VerdictOn(Run(l, reqs), r).Admits()
  {
    NoTableEver(l, reqs);
  }

  /** The same per-source limits under a global bucket that never runs dry in the run. */
  function WithAmpleGlobal(l: Limiter, start: int, calls: nat): Limiter {
    l.(global := Some(Bucket(1.0, calls as real + 1.0, calls as real + 1.0, start)))
  }

  /** The global bucket of the two differs; verdicts and table do not. */
  lemma {:induction false} AmpleGlobalChangesNothing(l: Limiter, start: int, reqs: seq<Request>, calls: nat)
    requires l.global.None? && l.table.Some? && |reqs| <= calls
    ensures var a := WithAmpleGlobal(l, start, calls);
            && Run(l, reqs).global.None? && Run(l, reqs).table.Some? && Run(l, reqs).table == Run(a, reqs).table
            && Run(a, reqs).global.Some? && Run(a, reqs).global.value.rate == 1.0
            && Run(a, reqs).global.value.tokens >= (calls - |reqs|) as real + 1.0
            && Run(a, reqs).global.value.burst == calls as real + 1.0
            && (reqs != [] ==> LastVerdict(l, reqs) == LastVerdict(a, reqs))
  {
    if reqs != [] {
      var past, r := reqs[..|reqs| - 1], reqs[|reqs| - 1];
      AmpleGlobalChangesNothing(l, start, past, calls);
      var g := Run(WithAmpleGlobal(l, start, calls), past).global.value;
      if r.at > g.lastRefill {
        AccruedGrows(g.rate, 0, r.at - g.lastRefill);
      }
      hide Lookup, TakeVia;
    }
  }

  /** Without a global limit a call is admitted iff every window of its own source holds. */
  lemma {:induction false} SourceLimitAlone(l: Limiter, start: int, reqs: seq<Request>, r: Request)
    requires l.global.None? && l.table.Some? && FreshTable(l.table.value) && RetentionRefills(l.table.value)
    requires Ordered(start, reqs + [r]) && CapNeverBinds(l, reqs + [r])
    ensures VerdictOn(Run(l, reqs), r).Admits() <==> SourceWindowsHold(l, reqs, r.source, r.at)
  {
    hide Lookup, Admit, Ordered, RetentionRefills, SourceAdmittedSince;
    var all, a := reqs + [r], WithAmpleGlobal(l, start, |reqs| + 1);
    assert all[..|reqs|] == reqs && all[..|all|] == all;
    AmpleAgrees(l, start, all);
    AdmittedIffBothWindowsHold(a, start, reqs, r);
    AmpleWindowsHold(a, reqs, r.at);
    forall since
      ensures SourceAdmittedSince(l, reqs, r.source, since) == SourceAdmittedSince(a, reqs, r.source, since) {
      forall i | 0 < i <= |reqs| ensures LastVerdict(l, reqs[..i]) == LastVerdict(a, reqs[..i]) {
        assert reqs[..i] == all[..i];
      }
      SameCounts(l, a, reqs, r.source, since);
    }
    assert LastVerdict(l, all[..|all|]) == LastVerdict(a, all[..|all|]);
  }

  lemma {:induction false} AmpleAgrees(l: Limiter, start: int, all: seq<Request>)
    requires l.global.None? && l.table.Some? && CapNeverBinds(l, all)
    ensures var a := WithAmpleGlobal(l, start, |all|);
            && CapNeverBinds(a, all)
            && forall i :: 0 < i <= |all| ==> LastVerdict(l, all[..i]) == LastVerdict(a, all[..i])
  {
    hide LastVerdict, Run;
    forall i | 0 < i <= |all|
      ensures LastVerdict(l, all[..i]) == LastVerdict(WithAmpleGlobal(l, start, |all|), all[..i]) {
      AmpleGlobalChangesNothing(l, start, all[..i], |all|);
    }
  }

  lemma {:induction false} AmpleWindowsHold(a: Limiter, reqs: seq<Request>, now: int)
    requires a.global.Some? && a.global.value.rate == 1.0 && a.global.value.burst >= |reqs| as real + 1.0
    ensures GlobalWindowsHold(a, reqs, now)
  {
    forall since | since <= now
      ensures PassedSince(a, reqs, since) as real + 1.0 <= a.global.value.burst + Accrued(1.0, now - since) {
      AtMostAll(a, reqs, since);
      AccruedGrows(1.0, 0, now - since);
    }
  }

  lemma {:induction false} AtMostAll(a: Limiter, reqs: seq<Request>, since: int)
    ensures PassedSince(a, reqs, since) <= |reqs|
  {
    if reqs != [] {
      AtMostAll(a, reqs[..|reqs| - 1], since);
    }
  }

  lemma {:induction false} SameCounts(l: Limiter, a: Limiter, reqs: seq<Request>, source: string, since: int)
    requires forall i :: 0 < i <= |reqs| ==> LastVerdict(l, reqs[..i]) == LastVerdict(a, reqs[..i])
    ensures SourceAdmittedSince(l, reqs, source, since) == SourceAdmittedSince(a, reqs, source, since)
  {
    if reqs != [] {
      var past := reqs[..|reqs| - 1];
      assert reqs[..|reqs|] == reqs;
      forall i | 0 < i <= |past| ensures LastVerdict(l, past[..i]) == LastVerdict(a, past[..i]) {
        assert past[..i] == reqs[..i];
      }
      SameCounts(l, a, past, source, since);
    }
  }
}
