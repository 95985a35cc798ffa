/**
 When forgetting a silent source can be seen at all: an exact condition on the per-source
 settings. Where it fails, one source calling 256 * burst times around one silence shows it.
 */
module LimiterRetention {
  import opened Wrappers
  import opened TokenBuckets
  import opened RequestLimiters
  import opened LimiterRuns

  datatype Settings = Settings(rate: real, burst: int, stateTTL: int, maxSources: int) {
    /** What a configuration with both limits on and room for a source gives. */
    ghost predicate Valid() {
      rate > 0.0 && burst > 0 && maxSources > 0
    }

    function TableAt(now: int): Table {
      Table(rate, burst, stateTTL, maxSources, Bucket(rate, burst as real, burst as real, now), map[], 0)
    }
  }

  /** No run of any new limiter with these settings answers as if a source had been forgotten. */
  ghost predicate NeverShows(s: Settings) {
    forall l, start, reqs ::
      NewRun(s, l, start, reqs) ==> SameAnswer(l, reqs)
  }

  /** An ordered run within the cap from a new limiter with these settings. */
  ghost predicate NewRun(s: Settings, l: Limiter, start: int, reqs: seq<Request>) {
    && Fresh(l, start) && l.table.value == s.TableAt(start)
    && reqs != [] && Ordered(start, reqs) && CapNeverBinds(l, reqs)
  }

  ghost predicate RefillsInTime(s: Settings) {
    RetentionRefills(s.TableAt(0))
  }

  /** Forgetting is unobservable if and only if the retention outlasts the refilling of an empty bucket. */
  lemma ForgettingShowsIffRetentionIsShort(s: Settings)
    requires s.Valid()
    ensures NeverShows(s) <==> RefillsInTime(s)
  {
    if RefillsInTime(s) {
      forall l, start, reqs | NewRun(s, l, start, reqs) ensures SameAnswer(l, reqs) {
        ForgettingIsUnobservable(l, start, reqs);
      }
    } else {
      ShortRetentionIsObservable(s);
    }
  }

  // ---------------------------------------------------------------- the run that shows it

  /** Calls before the silence: the next one is a purging call. */
  function Before(s: Settings): nat {
    if s.burst > 0 then 256 * s.burst - 1 else 0
  }

  /** The silence: just longer than the retention. */
  function Silence(s: Settings): int {
    s.stateTTL + 1
  }

  function Witness(s: Settings): Limiter {
    var tokens := (257 * s.burst) as real;
    Limiter(Some(Bucket(1.0, tokens, tokens, 0)), Some(s.TableAt(0)))
  }

  /** One source calling n times at the start and m times after the silence. */
  function Calls(s: Settings, n: nat, m: nat): seq<Request> {
    seq(n + m, i requires 0 <= i < n + m => Request("a", if i < n then 0 else Silence(s)))
  }

  lemma CallsButLast(s: Settings, n: nat, m: nat)
    requires n + m > 0
    ensures Calls(s, n, m)[..n + m - 1] == if m > 0 then Calls(s, n, m - 1) else Calls(s, n - 1, 0)
  {
  }

  /** What the last of those calls does to what the ones before it left. */
  lemma LastOfCalls(s: Settings, n: nat, m: nat)
    requires s.Valid() && n + m > 0
    ensures var w, reqs := Witness(s), Calls(s, n, m);
            var past := if m > 0 then Calls(s, n, m - 1) else Calls(s, n - 1, 0);
            var r := Request("a", if m > 0 then Silence(s) else 0);
            var l, u := Run(w, past), RememberingRun(RememberingOf(w), past);
            && Run(w, reqs) == Next(l, r) && LastVerdict(w, reqs) == VerdictOn(l, r)
            && RememberingRun(RememberingOf(w), reqs) == RememberingAdmit(u, r).0
            && (SameAnswer(w, reqs) <==> VerdictOn(l, r).Admits() == RememberingAdmit(u, r).2)
  {
    hide Admit, RememberingAdmit;
    CallsButLast(s, n, m);
  }

  function Holding(s: Settings, b: Bucket, count: nat): Table {
    s.TableAt(0).(entries := map["a" := Entry(b, b.lastRefill)], requestCount := count)
  }

  /** The global bucket still lets `left` calls pass at any time from now on. */
  ghost predicate Ample(l: Limiter, u: Remembering, left: int) {
    l.global == Some(u.global) && u.global.rate == 1.0 && u.global.tokens >= left as real
    && u.global.burst >= left as real
  }

  lemma AmpleTake(b: Bucket, at: int, left: int)
    requires b.rate == 1.0 && b.tokens >= left as real && b.burst >= left as real && left >= 1
    ensures Take(b, at).1 && Take(b, at).0.rate == 1.0 && Take(b, at).0.burst == b.burst
    ensures Take(b, at).0.tokens >= (left - 1) as real
  {
    if at > b.lastRefill {
      AccruedGrows(b.rate, 0, at - b.lastRefill);
    }
  }

  /** One call: the bucket each limiter uses for it. */
  lemma OneCall(s: Settings, l: Limiter, u: Remembering, at: int, left: int, own: Bucket)
    requires s.Valid() && Ample(l, u, left) && left >= 1 && l.table.Some?
    requires u.rate == s.rate && u.burst == s.burst
    requires var t := l.table.value;
             && t == s.TableAt(0).(entries := t.entries, requestCount := t.requestCount)
             && (if Counted(t, at).entries == map[] then own == NewBucket(s.rate, s.burst, at).value
                 else exists seen :: Counted(t, at).entries == map["a" := Entry(own, seen)])
    ensures var r := Request("a", at);
            var (u', _, ok) := RememberingAdmit(u, r);
            && Ample(Next(l, r), u', left - 1)
            && Next(l, r).table == Some(Holding(s, Take(own, at).0, l.table.value.requestCount + 1))
            && VerdictOn(l, r) == PerSource(Tracked("a"), Take(own, at).1)
            && u' == u.(global := u'.global, buckets := u.buckets["a" := Take(BucketFor(u, "a", at), at).0])
            && ok == Take(BucketFor(u, "a", at), at).1
  {
    AmpleTake(u.global, at, left);
    var t := l.table.value;
    var c := Counted(t, at);
    assert t.requestCount + 1 == c.requestCount;
    var (found, route) := Lookup(t, "a", at);
    assert route == Tracked("a") && found.entries == map["a" := Entry(own, at)];
    assert TakeVia(found, route, at).0.entries == map["a" := Entry(Take(own, at).0, at)];
  }

  /** A source's bucket after n calls at the start. */
  function Spent(s: Settings, n: nat): Bucket {
    Bucket(s.rate, s.burst as real, if n >= s.burst then 0.0 else (s.burst - n) as real, 0)
  }

  lemma SpendOne(s: Settings, n: nat)
    requires s.Valid()
    ensures Take(Spent(s, n), 0).0 == Spent(s, n + 1)
    ensures n == 0 ==> NewBucket(s.rate, s.burst, 0) == Some(Spent(s, n))
  {
  }

  /** Before the silence both limiters hold the same bucket. */
  ghost predicate Early(s: Settings, l: Limiter, u: Remembering, n: nat) {
    && Ample(l, u, 257 * s.burst - n) && u.rate == s.rate && u.burst == s.burst
    && l.table == Some(if n == 0 then s.TableAt(0) else Holding(s, Spent(s, n), n))
    && u.buckets == if n == 0 then map[] else map["a" := Spent(s, n)]
  }

  /** After it the evicting limiter has started anew; the other has less than the tokens its source asks for. */
  ghost predicate Late(s: Settings, l: Limiter, u: Remembering, m: nat) {
    && Ample(l, u, s.burst + 1 - m) && u.rate == s.rate && u.burst == s.burst && "a" in u.buckets
    && l.table == Some(Holding(s, Bucket(s.rate, s.burst as real, (s.burst - m) as real, Silence(s)), Before(s) + m))
    && LateBucket(s, u.buckets["a"], m)
  }

  ghost predicate LateBucket(s: Settings, b: Bucket, m: nat) {
    && b.rate == s.rate && b.burst == s.burst as real && b.lastRefill == Silence(s)
    && (b.tokens < 1.0 || b.tokens == Accrued(s.rate, Silence(s)) - m as real)
  }

  lemma EarlyStep(s: Settings, l: Limiter, u: Remembering, n: nat)
    requires s.Valid() && s.stateTTL > 0 && n < Before(s) && Early(s, l, u, n)
    ensures Early(s, Next(l, Request("a", 0)), RememberingAdmit(u, Request("a", 0)).0, n + 1)
    ensures VerdictOn(l, Request("a", 0)).PerSource? && VerdictOn(l, Request("a", 0)).route == Tracked("a")
  {
    var t, b := l.table.value, Spent(s, n);
    assert Counted(t, 0).entries == if n == 0 then map[] else map["a" := Entry(b, 0)];
    SpendOne(s, n);
    hide Counted, RememberingAdmit, Admit, Take, Spent;
    OneCall(s, l, u, 0, 257 * s.burst - n, b);
  }

  lemma FirstLateStep(s: Settings, l: Limiter, u: Remembering)
    requires s.Valid() && !RefillsInTime(s) && Early(s, l, u, Before(s))
    ensures LateAnswer(s, l, u, 0)
  {
    var d, t := Silence(s), l.table.value;
    assert Counted(t, d).entries == map[];
    hide Counted, RememberingAdmit, Admit;
    OneCall(s, l, u, d, s.burst + 1, NewBucket(s.rate, s.burst, d).value);
    assert Refill(u.buckets["a"], d).tokens == Accrued(s.rate, d);
  }

  lemma LateStep(s: Settings, l: Limiter, u: Remembering, m: nat)
    requires s.Valid() && !RefillsInTime(s) && 0 < m < s.burst && Late(s, l, u, m)
    ensures LateAnswer(s, l, u, m)
  {
    var d, t := Silence(s), l.table.value;
    assert Counted(t, d).entries == t.entries;
    hide Counted, RememberingAdmit, Admit;
    OneCall(s, l, u, d, s.burst + 1 - m, t.entries["a"].bucket);
  }

  /** One more call after the silence is admitted; the remembering limiter refuses the last one. */
  ghost predicate LateAnswer(s: Settings, l: Limiter, u: Remembering, m: nat) {
    var r := Request("a", Silence(s));
    var (u', _, ok) := RememberingAdmit(u, r);
    && Late(s, Next(l, r), u', m + 1) && VerdictOn(l, r) == PerSource(Tracked("a"), true)
    && (m + 1 == s.burst ==> !ok)
  }

  lemma {:induction false} EarlyRun(s: Settings, n: nat)
    requires s.Valid() && s.stateTTL > 0 && n <= Before(s)
    ensures Early(s, Run(Witness(s), Calls(s, n, 0)), RememberingRun(RememberingOf(Witness(s)), Calls(s, n, 0)), n)
    ensures n > 0 ==> !UsedOverflow(Witness(s), Calls(s, n, 0))
  {
    if n > 0 {
      EarlyRun(s, n - 1);
      LastOfCalls(s, n, 0);
      var past := Calls(s, n - 1, 0);
      var l, u := Run(Witness(s), past), RememberingRun(RememberingOf(Witness(s)), past);
      hide Early, Before, Admit, RememberingAdmit;
      EarlyStep(s, l, u, n - 1);
    }
  }

  lemma {:induction false} LateRun(s: Settings, m: nat)
    requires s.Valid() && 1 <= m <= s.burst && !RefillsInTime(s)
    ensures var reqs := Calls(s, Before(s), m);
            && Late(s, Run(Witness(s), reqs), RememberingRun(RememberingOf(Witness(s)), reqs), m)
            && !UsedOverflow(Witness(s), reqs)
            && (m == s.burst ==> !SameAnswer(Witness(s), reqs))
  {
    var n := Before(s);
    LastOfCalls(s, n, m);
    var past := Calls(s, n, m - 1);
    var l, u := Run(Witness(s), past), RememberingRun(RememberingOf(Witness(s)), past);
    hide Late, Early, Admit, RememberingAdmit, Run, RememberingRun, SameAnswer, Before;
    if m > 1 {
      LateRun(s, m - 1);
      LateStep(s, l, u, m - 1);
    } else {
      EarlyRun(s, n);
      FirstLateStep(s, l, u);
    }
  }

  lemma WitnessWithinCap(s: Settings)
    requires s.Valid() && !RefillsInTime(s)
    ensures CapNeverBinds(Witness(s), Calls(s, Before(s), s.burst))
  {
    hide UsedOverflow, Late, Before;
    var n := Before(s);
    var reqs := Calls(s, n, s.burst);
    forall i | 0 < i <= |reqs| ensures !UsedOverflow(Witness(s), reqs[..i]) {
      if i <= n {
        assert reqs[..i] == Calls(s, i, 0);
        EarlyRun(s, i);
      } else {
        assert reqs[..i] == Calls(s, n, i - n);
        LateRun(s, i - n);
      }
    }
  }

  lemma WitnessOrdered(s: Settings)
    requires s.Valid() && s.stateTTL > 0
    ensures Ordered(0, Calls(s, Before(s), s.burst))
  {
    var n, reqs := Before(s), Calls(s, Before(s), s.burst);
    assert forall i :: 0 <= i < |reqs| ==> reqs[i].at == if i < n then 0 else Silence(s);
    var times := [0] + Times(reqs);
    assert forall i :: 0 <= i < |times| ==> times[i] == if i <= n then 0 else Silence(s);
  }

  /** Where the condition fails, a new limiter and an ordered run within the cap show the forgetting. */
  lemma ShortRetentionIsObservable(s: Settings)
    requires s.Valid() && !RefillsInTime(s)
    ensures var l, reqs := Witness(s), Calls(s, Before(s), s.burst);
            NewRun(s, l, 0, reqs) && !SameAnswer(l, reqs)
  {
    hide SameAnswer, Late, CapNeverBinds, Ordered, Before;
    LateRun(s, s.burst);
    WitnessWithinCap(s);
    WitnessOrdered(s);
  }
}
