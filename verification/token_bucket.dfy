/**
 The token bucket of pkg/proxy/proxy.go: refill by elapsed time, cap at the burst,
 spend one token per admitted call.

 Timestamps are nanoseconds. A caller takes its timestamp before the bucket's lock,
 so calls may arrive out of order; only the exact characterisation asks for an order.
 */
module TokenBuckets {
  import opened Wrappers

  datatype Bucket = Bucket(rate: real, burst: real, tokens: real, lastRefill: int) {

    /** What every bucket built by NewBucket keeps. */
    ghost predicate Valid() {
      rate > 0.0 && burst >= 1.0 && 0.0 <= tokens <= burst
    }

    ghost predicate Full() {
      Valid() && tokens == burst
    }
  }

  /** Tokens gained in the given number of nanoseconds. */
  function Accrued(rate: real, nanos: int): real {
    rate * (nanos as real / 1_000_000_000.0)
  }

  function NewBucket(rate: real, burst: int, now: int): (r: Option<Bucket>)
    ensures r.Some? <==> rate > 0.0 && burst > 0
    ensures r.Some? ==> r.value.Full() && r.value.lastRefill == now
    ensures r.Some? ==> r.value.rate == rate && r.value.tokens == burst as real
  {
    if rate <= 0.0 || burst <= 0 then None else Some(Bucket(rate, burst as real, burst as real, now))
  }

  function Refill(b: Bucket, now: int): Bucket {
    if now <= b.lastRefill then
      b.(lastRefill := now)
    else
      var grown := b.tokens + Accrued(b.rate, now - b.lastRefill);
      b.(tokens := if grown > b.burst then b.burst else grown, lastRefill := now)
  }

  function Take(b: Bucket, now: int): (Bucket, bool) {
    var r := Refill(b, now);
    if r.tokens < 1.0 then (r, false) else (r.(tokens := r.tokens - 1.0), true)
  }

  /** The bucket object: fields updated in place under its mutex. */
  class TokenBucket {
    const rate: real
    const burst: real
    var tokens: real
    var lastRefill: int

    ghost function View(): Bucket
      reads this
    {
      Bucket(rate, burst, tokens, lastRefill)
    }

    constructor (rate: real, burst: int, now: int)
      requires rate > 0.0 && burst > 0
      ensures NewBucket(rate, burst, now) == Some(View())
    {
      this.rate, this.burst := rate, burst as real;
      tokens, lastRefill := burst as real, now;
    }

    method Allow(now: int) returns (ok: bool)
      modifies this
      ensures (View(), ok) == Take(old(View()), now)
    {
      if now < lastRefill {
        lastRefill := now;
      }
      var elapsed := now - lastRefill;
      if elapsed > 0 {
        tokens := tokens + rate * (elapsed as real / 1_000_000_000.0);
        if tokens > burst {
          tokens := burst;
        }
        lastRefill := now;
      }
      assert View() == Refill(old(View()), now);
      if tokens < 1.0 {
        return false;
      }
      tokens := tokens - 1.0;
      return true;
    }
  }

  // ---------------------------------------------------------------- runs of calls

  /** The bucket after calls at the given times, in the order they got the lock. */
  function After(b: Bucket, times: seq<int>): Bucket {
    if times == [] then b else Take(After(b, times[..|times| - 1]), times[|times| - 1]).0
  }

  /** How many of those calls at or after `since` were admitted. */
  function AdmittedSince(b: Bucket, times: seq<int>, since: int): nat {
    if times == [] then 0 else
      var past, now := times[..|times| - 1], times[|times| - 1];
      AdmittedSince(b, past, since) + if since <= now && Take(After(b, past), now).1 then 1 else 0
  }

  /** How many of those calls were admitted. */
  function AdmittedCount(b: Bucket, times: seq<int>): nat {
    if times == [] then 0 else
      var past, now := times[..|times| - 1], times[|times| - 1];
      AdmittedCount(b, past) + if Take(After(b, past), now).1 then 1 else 0
  }

  /** Time gained between consecutive calls; steps backwards gain nothing. */
  function ForwardSteps(times: seq<int>): nat {
    if |times| <= 1 then 0 else
      var step := times[|times| - 1] - times[|times| - 2];
      ForwardSteps(times[..|times| - 1]) + if step > 0 then step else 0
  }

  ghost predicate NonDecreasing(times: seq<int>) {
    forall i, j :: 0 <= i <= j < |times| ==> times[i] <= times[j]
  }

  function Latest(start: int, times: seq<int>): int {
    if times == [] then start else times[|times| - 1]
  }

  lemma AccruedAdds(rate: real, a: int, b: int)
    ensures Accrued(rate, a + b) == Accrued(rate, a) + Accrued(rate, b)
  {
  }

  lemma AccruedGrows(rate: real, a: int, b: int)
    requires rate >= 0.0 && a <= b
    ensures Accrued(rate, a) <= Accrued(rate, b)
  {
  }

  lemma TakeKeeps(b: Bucket, now: int)
    requires b.Valid()
    ensures Take(b, now).0.Valid()
    ensures Take(b, now).0.rate == b.rate && Take(b, now).0.burst == b.burst
    ensures Take(b, now).0.lastRefill == now
  {
  }

  lemma {:induction false} AfterKeeps(b: Bucket, times: seq<int>)
    requires b.Valid()
    ensures After(b, times).Valid()
    ensures After(b, times).rate == b.rate && After(b, times).burst == b.burst
    ensures After(b, times).lastRefill == Latest(b.lastRefill, times)
  {
    if times != [] {
      var past := times[..|times| - 1];
      AfterKeeps(b, past);
      TakeKeeps(After(b, past), times[|times| - 1]);
    }
  }

  /** The room left in the window [since, now] before call number |times|. */
  ghost function Slack(b: Bucket, times: seq<int>, now: int, since: int): real {
    b.burst + Accrued(b.rate, now - since) - AdmittedSince(b, times, since) as real
  }

  lemma {:induction false} NothingAfterLatest(b: Bucket, times: seq<int>, since: int)
    requires NonDecreasing(times) && Latest(since - 1, times) < since
    ensures AdmittedSince(b, times, since) == 0
  {
    if times != [] {
      var past := times[..|times| - 1];
      if past != [] {
        assert past[|past| - 1] <= times[|times| - 1];
      }
      NothingAfterLatest(b, past, since);
    }
  }

  /** The tokens left are the least slack over all windows that end now: refilling to `now`. */
  lemma RefillIsLeastSlack(b: Bucket, times: seq<int>, now: int, tight: int) returns (since: int)
    requires b.Full() && NonDecreasing([b.lastRefill] + times + [now])
    requires var last := Latest(b.lastRefill, times);
             var kept := After(b, times);
             && tight <= last && kept.tokens == Slack(b, times, last, tight)
             && forall s :: s <= last ==> kept.tokens <= Slack(b, times, last, s)
    ensures since <= now && Refill(After(b, times), now).tokens == Slack(b, times, now, since)
    ensures forall s :: s <= now ==> Refill(After(b, times), now).tokens <= Slack(b, times, now, s)
  {
    AfterKeeps(b, times);
    var last, kept := Latest(b.lastRefill, times), After(b, times);
    var all := [b.lastRefill] + times + [now];
    assert all[|times|] == last && all[|times| + 1] == now;
    assert NonDecreasing(times) by { assert forall i :: 0 <= i < |times| ==> times[i] == all[i + 1]; }
    forall s | s <= now
      ensures s <= last ==> Slack(b, times, now, s) == Slack(b, times, last, s) + Accrued(b.rate, now - last)
      ensures s > last ==> Slack(b, times, now, s) == b.burst + Accrued(b.rate, now - s)
      ensures Accrued(b.rate, now - s) >= 0.0
    {
      AccruedAdds(b.rate, now - last, last - s);
      assert (now - last) + (last - s) == now - s;
      AccruedGrows(b.rate, 0, now - s);
      if s > last { NothingAfterLatest(b, times, s); }
    }
    since := if now > last && kept.tokens + Accrued(b.rate, now - last) > b.burst then now else tight;
  }

  lemma {:induction false} TokensAreLeastSlack(b: Bucket, times: seq<int>) returns (since: int)
    requires b.Full() && NonDecreasing([b.lastRefill] + times)
    ensures var last := Latest(b.lastRefill, times);
            var kept := After(b, times);
            && since <= last && kept.tokens == Slack(b, times, last, since)
            && forall s :: s <= last ==> kept.tokens <= Slack(b, times, last, s)
  {
    if times == [] {
      since := b.lastRefill;
      forall s | s <= b.lastRefill ensures Slack(b, times, b.lastRefill, s) >= b.burst {
        AccruedGrows(b.rate, 0, b.lastRefill - s);
      }
    } else {
      var past, now := times[..|times| - 1], times[|times| - 1];
      assert [b.lastRefill] + past + [now] == [b.lastRefill] + times;
      assert NonDecreasing([b.lastRefill] + past) by {
        assert [b.lastRefill] + past == ([b.lastRefill] + times)[..|times|];
      }
      var tight := TokensAreLeastSlack(b, past);
      since := RefillIsLeastSlack(b, past, now, tight);
      var spent := if Take(After(b, past), now).1 then 1.0 else 0.0;
      assert forall s :: s <= now ==> Slack(b, times, now, s) == Slack(b, past, now, s) - spent;
    }
  }

  /** Admitting one more call now keeps every window ending now within burst + rate * length. */
  ghost predicate EveryWindowHolds(b: Bucket, times: seq<int>, now: int) {
    forall since :: since <= now ==>
      AdmittedSince(b, times, since) as real + 1.0 <= b.burst + Accrued(b.rate, now - since)
  }

  /** Exact characterisation: with ordered timestamps a full bucket admits a call iff every window holds. */
  lemma AdmittedIffEveryWindowHolds(b: Bucket, times: seq<int>, now: int)
    requires b.Full() && NonDecreasing([b.lastRefill] + times + [now])
    ensures Take(After(b, times), now).1 <==> EveryWindowHolds(b, times, now)
  {
    assert [b.lastRefill] + times == ([b.lastRefill] + times + [now])[..|times| + 1];
    var tight := TokensAreLeastSlack(b, times);
    var since := RefillIsLeastSlack(b, times, now, tight);
    var refilled := Refill(After(b, times), now);
    assert Slack(b, times, now, since) == refilled.tokens;
    if refilled.tokens < 1.0 {
      assert !(AdmittedSince(b, times, since) as real + 1.0 <= b.burst + Accrued(b.rate, now - since));
    } else {
      forall s | s <= now
        ensures AdmittedSince(b, times, s) as real + 1.0 <= b.burst + Accrued(b.rate, now - s)
      {
        assert refilled.tokens <= Slack(b, times, now, s);
      }
    }
  }

  /**
   For timestamps in any order, from any state a bucket can reach: a run of calls admits at
   most burst + rate * (sum of its forward steps).
   */
  lemma {:induction false} AdmissionsBoundedByForwardSteps(b: Bucket, times: seq<int>)
    requires b.Valid()
    ensures AdmittedCount(b, times) as real <= b.burst + Accrued(b.rate, ForwardSteps(times))
    ensures times != [] ==>
              AdmittedCount(b, times) as real + After(b, times).tokens
              <= b.burst + Accrued(b.rate, ForwardSteps(times))
  {
    if times != [] {
      var past, now := times[..|times| - 1], times[|times| - 1];
      AfterKeeps(b, times);
      AfterKeeps(b, past);
      AdmissionsBoundedByForwardSteps(b, past);
      AccruedGrows(b.rate, 0, ForwardSteps(times));
      if past != [] {
        var step := now - past[|past| - 1];
        assert past[|past| - 1] == times[|times| - 2];
        AccruedAdds(b.rate, ForwardSteps(past), step);
        if step <= 0 {
          assert ForwardSteps(times) == ForwardSteps(past);
        } else {
          assert ForwardSteps(times) == ForwardSteps(past) + step;
        }
      } else {
        TakeKeeps(b, now);
        assert Refill(b, now).tokens <= b.burst;
      }
    } else {
      AccruedGrows(b.rate, 0, 0);
    }
  }

  /** A bucket accrues its rate in every second, in proportion in between. */
  lemma AccruesRatePerSecond(rate: real, seconds: int, a: int, b: int)
    ensures Accrued(rate, seconds * 1_000_000_000) == seconds as real * rate
    ensures Accrued(rate, a + b) == Accrued(rate, a) + Accrued(rate, b)
  {
    AccruedAdds(rate, a, b);
  }

  // ---------------------------------------------------------------- timestamps in any order

  /** The times by a clock that follows the forward steps and stands still at the others. */
  function StandingClock(start: int, times: seq<int>): seq<int> {
    if times == [] then [] else
      var past, n := StandingClock(start, times[..|times| - 1]), |times|;
      var step := times[n - 1] - Latest(start, times[..n - 1]);
      past + [Latest(start, past) + if step > 0 then step else 0]
  }

  lemma {:induction false} StandingClockOrdered(start: int, times: seq<int>)
    ensures |StandingClock(start, times)| == |times| && NonDecreasing([start] + StandingClock(start, times))
  {
    if times != [] {
      var past := times[..|times| - 1];
      StandingClockOrdered(start, past);
      var before, all := [start] + StandingClock(start, past), [start] + StandingClock(start, times);
      assert before[|before| - 1] == Latest(start, StandingClock(start, past));
      assert all == before + [all[|all| - 1]];
    }
  }

  /** In any order of timestamps the bucket acts as it would at the times of the standing clock. */
  lemma {:induction false} ActsByStandingClock(b: Bucket, times: seq<int>)
    requires b.Valid()
    ensures var clock := StandingClock(b.lastRefill, times);
            && After(b, times) == After(b, clock).(lastRefill := Latest(b.lastRefill, times))
            && After(b, clock).lastRefill == Latest(b.lastRefill, clock)
            && AdmittedCount(b, times) == AdmittedCount(b, clock)
  {
    if times != [] {
      var past, clock := times[..|times| - 1], StandingClock(b.lastRefill, times);
      ActsByStandingClock(b, past);
      StandingClockOrdered(b.lastRefill, past);
      assert clock[..|clock| - 1] == StandingClock(b.lastRefill, past);
    }
  }

  /** Exact characterisation for timestamps in any order: the windows of the standing clock. */
  lemma AdmittedIffEveryStandingWindowHolds(b: Bucket, times: seq<int>, now: int)
    requires b.Full()
    ensures |StandingClock(b.lastRefill, times + [now])| == |times| + 1
    ensures var clock := StandingClock(b.lastRefill, times + [now]);
            Take(After(b, times), now).1 <==> EveryWindowHolds(b, clock[..|times|], clock[|times|])
  {
    var all := times + [now];
    var clock := StandingClock(b.lastRefill, all);
    assert all[..|times|] == times;
    StandingClockOrdered(b.lastRefill, all);
    StandingClockOrdered(b.lastRefill, times);
    ActsByStandingClock(b, times);
    ActsByStandingClock(b, all);
    assert clock[..|times|] == StandingClock(b.lastRefill, times) && clock == clock[..|times|] + [clock[|times|]];
    assert [b.lastRefill] + clock[..|times|] + [clock[|times|]] == [b.lastRefill] + clock;
    AdmittedIffEveryWindowHolds(b, clock[..|times|], clock[|times|]);
  }
}
