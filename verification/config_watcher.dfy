/**
 The debounce loop of pkg/watcher/watcher.go as a timed state machine. Each turn of the loop is
 one select case; the environment chooses which of the ready cases runs and when. While the reload
 callback runs the loop is blocked, so the next case comes no earlier than its end.
 */
module ConfigWatchers {
  import opened Wrappers

  datatype Case =
    | Cancelled                           // ctx.Done()
    | Notified(at: int, relevant: bool)   // a create, write, rename, remove or chmod is relevant
    | EventsClosed
    | Errored
    | ErrorsClosed
    | TimerFired(at: int, end: int)       // the callback runs from `at` to `end`

  /** `seen` counts the relevant events processed before the reload began. */
  datatype Reload = Reload(start: int, end: int, seen: nat)

  /** The loop's variables, and what it has done so far. A timer is its deadline. */
  datatype Loop = Loop(
    timer: Option<int>, channel: Option<int>, running: bool, now: int,
    relevant: seq<int>, reloads: seq<Reload>)

  function Start(now: int): Loop {
    Loop(None, None, true, now, [], [])
  }

  /** A case the select can take: time does not go back, and a timer fires at or after its deadline. */
  predicate Ready(s: Loop, c: Case) {
    match c
    case Notified(at, _) => s.now <= at
    case TimerFired(at, end) => s.channel.Some? && s.channel.value <= at && s.now <= at <= end
    case _ => true
  }

  function Turn(s: Loop, c: Case, debounce: int): Loop {
    if !s.running then s else
    match c
    case Cancelled => s.(running := false)
    case EventsClosed => s.(running := false)
    case ErrorsClosed => s.(running := false)
    case Errored => s
    case Notified(at, relevant) =>
      if !relevant then s.(now := at) else
        s.(timer := Some(at + debounce), channel := Some(at + debounce), now := at, relevant := s.relevant + [at])
    case TimerFired(at, end) =>
      s.(timer := None, channel := None, now := end, reloads := s.reloads + [Reload(at, end, |s.relevant|)])
  }

  function Run(s: Loop, cases: seq<Case>, debounce: int): Loop {
    if cases == [] then s else Turn(Run(s, cases[..|cases| - 1], debounce), cases[|cases| - 1], debounce)
  }

  ghost predicate Possible(s: Loop, cases: seq<Case>, debounce: int) {
    cases == [] ||
    (Possible(s, cases[..|cases| - 1], debounce) &&
     Ready(Run(s, cases[..|cases| - 1], debounce), cases[|cases| - 1]))
  }

  class ConfigWatcher {
    const debounce: int

    constructor (debounce: int)
      ensures this.debounce == if debounce > 0 then debounce else 1_000_000_000
    {
      this.debounce := if debounce > 0 then debounce else 1_000_000_000;
    }

    /** The body of the for loop, once per case the select takes. */
    method WatchLoop(start: int, cases: seq<Case>) returns (s: Loop)
      requires Possible(Start(start), cases, debounce)
      ensures s == Run(Start(start), cases, debounce)
    {
      var debounceTimer: Option<int> := None;
      var debounceCh: Option<int> := None;
      var now := start;
      var relevant: seq<int> := [];
      var reloads: seq<Reload> := [];
      for i := 0 to |cases|
        invariant Loop(debounceTimer, debounceCh, true, now, relevant, reloads) ==
                  Run(Start(start), cases[..i], debounce)
      {
        assert cases[..i + 1][..i] == cases[..i];
        match cases[i]
        case Cancelled | EventsClosed | ErrorsClosed =>
          StoppedForever(Start(start), cases, debounce, i + 1);
          return Loop(debounceTimer, debounceCh, false, now, relevant, reloads);
        case Errored =>
        case Notified(at, isRelevant) =>
          now := at;
          if !isRelevant {
            continue;
          }
          relevant := relevant + [at];
          debounceTimer := Some(at + debounce);
          debounceCh := debounceTimer;
        case TimerFired(at, end) =>
          debounceCh := None;
          debounceTimer := None;
          reloads := reloads + [Reload(at, end, |relevant|)];
          now := end;
      }
      assert cases[..|cases|] == cases;
      s := Loop(debounceTimer, debounceCh, true, now, relevant, reloads);
    }
  }

  lemma {:induction false} StoppedForever(s: Loop, cases: seq<Case>, debounce: int, n: nat)
    requires n <= |cases| && !Run(s, cases[..n], debounce).running
    ensures Run(s, cases, debounce) == Run(s, cases[..n], debounce)
  {
    if n == |cases| {
      assert cases[..n] == cases;
    } else {
      var past := cases[..|cases| - 1];
      assert past[..n] == cases[..n];
      StoppedForever(s, past, debounce, n);
    }
  }

  /** A relevant event no reload has seen yet. */
  ghost predicate Unseen(s: Loop) {
    s.relevant != [] && (s.reloads == [] || s.reloads[|s.reloads| - 1].seen < |s.relevant|)
  }

  /** No update is lost: an unseen event has its timer, and a timer means an unseen event. */
  ghost predicate TimerMeansUnseen(s: Loop, debounce: int) {
    && s.timer == s.channel
    && (s.channel.Some? <==> Unseen(s))
    && (s.channel.Some? ==> s.channel.value == s.relevant[|s.relevant| - 1] + debounce)
  }

  /** A reload starts at least a debounce after the last event it has seen. */
  ghost predicate Waited(s: Loop, r: Reload, debounce: int) {
    0 < r.seen <= |s.relevant| && s.relevant[r.seen - 1] + debounce <= r.start
  }

  ghost predicate Inv(s: Loop, debounce: int) {
    && TimerMeansUnseen(s, debounce)
    && (forall i :: 0 <= i < |s.reloads| ==> Waited(s, s.reloads[i], debounce))
    // Each reload has seen more events than the one before.
    && (forall i, j :: 0 <= i < j < |s.reloads| ==> s.reloads[i].seen < s.reloads[j].seen)
  }

  lemma TurnKeepsInv(s: Loop, c: Case, debounce: int)
    requires Inv(s, debounce) && Ready(s, c)
    ensures Inv(Turn(s, c, debounce), debounce)
  {
  }

  lemma {:induction false} RunKeepsInv(start: int, cases: seq<Case>, debounce: int)
    requires Possible(Start(start), cases, debounce)
    ensures Inv(Run(Start(start), cases, debounce), debounce)
  {
    if cases != [] {
      var past := cases[..|cases| - 1];
      RunKeepsInv(start, past, debounce);
      TurnKeepsInv(Run(Start(start), past, debounce), cases[|past|], debounce);
    }
  }

  /** Every reload starts at least a debounce after the last relevant event processed before it. */
  lemma {:induction false} ReloadsWaitForQuiet(start: int, cases: seq<Case>, debounce: int)
    requires Possible(Start(start), cases, debounce)
    ensures var s := Run(Start(start), cases, debounce);
            forall i :: 0 <= i < |s.reloads| ==> Waited(s, s.reloads[i], debounce)
  {
    RunKeepsInv(start, cases, debounce);
  }

  /** Whenever no timer is pending, the last reload began after the last relevant event. */
  lemma {:induction false} NoUpdateIsLost(start: int, cases: seq<Case>, debounce: int)
    requires Possible(Start(start), cases, debounce)
    ensures var s := Run(Start(start), cases, debounce);
            s.channel == None && s.relevant != [] ==>
              s.reloads != [] && s.reloads[|s.reloads| - 1].seen == |s.relevant|
  {
    RunKeepsInv(start, cases, debounce);
  }

  /** Reloads never outnumber relevant events. */
  lemma {:induction false} ReloadsNeverOutnumberEvents(start: int, cases: seq<Case>, debounce: int)
    requires Possible(Start(start), cases, debounce)
    ensures var s := Run(Start(start), cases, debounce);
            |s.reloads| <= |s.relevant|
  {
    RunKeepsInv(start, cases, debounce);
    var s := Run(Start(start), cases, debounce);
    if s.reloads != [] {
      assert Waited(s, s.reloads[0], debounce) && Waited(s, s.reloads[|s.reloads| - 1], debounce);
      SeenGrows(s.reloads, |s.reloads| - 1);
    }
  }

  lemma {:induction false} SeenGrows(reloads: seq<Reload>, i: nat)
    requires i < |reloads| && reloads[0].seen > 0
    requires forall j, k :: 0 <= j < k < |reloads| ==> reloads[j].seen < reloads[k].seen
    ensures i < reloads[i].seen
  {
    if i > 0 {
      SeenGrows(reloads, i - 1);
    }
  }

  // ---------------------------------------------------------------- what the loop reacts to

  predicate Stops(c: Case) {
    c.Cancelled? || c.EventsClosed? || c.ErrorsClosed?
  }

  ghost predicate NoneStops(cases: seq<Case>) {
    forall i :: 0 <= i < |cases| ==> !Stops(cases[i])
  }

  /** The cases before the first one that ends the loop. */
  ghost function Live(cases: seq<Case>): seq<Case> {
    if NoneStops(cases) then cases else Live(cases[..|cases| - 1])
  }

  /** The times of the relevant events, in order. */
  function RelevantTimes(cases: seq<Case>): seq<int> {
    if cases == [] then [] else
      RelevantTimes(cases[..|cases| - 1]) +
      match cases[|cases| - 1] case Notified(at, relevant) => (if relevant then [at] else []) case _ => []
  }

  /** One reload per firing of the timer, with the relevant events before it counted. */
  function Firings(cases: seq<Case>): seq<Reload> {
    if cases == [] then [] else
      var past := cases[..|cases| - 1];
      Firings(past) +
      match cases[|cases| - 1] case TimerFired(at, end) => [Reload(at, end, |RelevantTimes(past)|)] case _ => []
  }

  /**
   The loop runs until a case that ends it, reloads once per firing of its timer until then, and
   nothing else, errors and irrelevant events included, changes what it does.
   */
  lemma {:induction false} LoopFollowsItsEvents(start: int, cases: seq<Case>, debounce: int)
    ensures var s := Run(Start(start), cases, debounce);
            && (s.running <==> NoneStops(cases))
            && s.relevant == RelevantTimes(Live(cases)) && s.reloads == Firings(Live(cases))
  {
    if cases != [] {
      var past, c := cases[..|cases| - 1], cases[|cases| - 1];
      LoopFollowsItsEvents(start, past, debounce);
      assert cases == past + [c];
      StopsOfOneMore(past, c);
      FiringsOfOneMore(past, c);
      TurnReacts(Run(Start(start), past, debounce), c, debounce);
      hide RelevantTimes, Firings, Stops, NoneStops, Turn;
    }
  }

  lemma StopsOfOneMore(cases: seq<Case>, c: Case)
    ensures NoneStops(cases + [c]) <==> !Stops(c) && NoneStops(cases)
  {
    hide Stops;
    var all := cases + [c];
    assert all[|cases|] == c && forall i :: 0 <= i < |cases| ==> all[i] == cases[i];
  }

  lemma TurnReacts(s: Loop, c: Case, debounce: int)
    ensures var t := Turn(s, c, debounce);
            && (t.running <==> s.running && !Stops(c))
            && t.relevant == (if s.running && c.Notified? && c.relevant then s.relevant + [c.at] else s.relevant)
            && t.reloads == if s.running && c.TimerFired? then s.reloads + [Reload(c.at, c.end, |s.relevant|)]
                            else s.reloads
  {
  }

  lemma FiringsOfOneMore(cases: seq<Case>, c: Case)
    ensures RelevantTimes(cases + [c]) ==
            if c.Notified? && c.relevant then RelevantTimes(cases) + [c.at] else RelevantTimes(cases)
    ensures Firings(cases + [c]) ==
            if c.TimerFired? then Firings(cases) + [Reload(c.at, c.end, |RelevantTimes(cases)|)] else Firings(cases)
  {
    assert (cases + [c])[..|cases|] == cases;
  }

  /** A pending timer is due a debounce after the last relevant event, and only unseen events keep one. */
  lemma {:induction false} TimerIsDueAfterLastEvent(start: int, cases: seq<Case>, debounce: int)
    requires Possible(Start(start), cases, debounce)
    ensures var s := Run(Start(start), cases, debounce);
            s.channel.Some? ==> s.relevant != [] && s.channel.value == s.relevant[|s.relevant| - 1] + debounce &&
                                (s.reloads == [] || s.reloads[|s.reloads| - 1].seen < |s.relevant|)
  {
    RunKeepsInv(start, cases, debounce);
  }
}
