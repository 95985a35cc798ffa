/**
 The health checker's state (pkg/health/checker.go): failure counts and health flags per name,
 changed by probe results and by replacing the upstream list. A probe pass works on a snapshot of
 the targets, so results may also arrive for labels that are no longer configured.
 */
module HealthCheckers {
  import opened Upstreams

  datatype Health = Health(
    upstreams: seq<Target>, threshold: int, failures: map<string, nat>, healthy: map<string, bool>)

  function FailuresOf(h: Health, name: string): nat {
    if name in h.failures then h.failures[name] else 0
  }

  predicate HealthyOf(h: Health, name: string) {
    name in h.healthy && h.healthy[name]
  }

  function Failed(h: Health, name: string): Health {
    var n := FailuresOf(h, name) + 1;
    h.(failures := h.failures[name := n],
       healthy := if n >= h.threshold then h.healthy[name := false] else h.healthy)
  }

  function Recovered(h: Health, name: string): Health {
    h.(failures := h.failures[name := 0], healthy := h.healthy[name := true])
  }

  /** Retained labels keep their state, new labels start unhealthy, the rest is dropped. */
  function Updated(h: Health, targets: seq<Target>): Health {
    var labels := LabelsOf(targets);
    h.(upstreams := Deduplicated(targets),
       failures := map l | l in labels :: FailuresOf(h, l),
       healthy := map l | l in labels :: HealthyOf(h, l))
  }

  ghost predicate SomeHealthy(h: Health) {
    exists l :: HealthyOf(h, l)
  }

  /** NewChecker: every configured label starts unhealthy; the list itself is kept as given. */
  function NewHealth(targets: seq<Target>, threshold: int): Health {
    Health(targets, if threshold <= 0 then 3 else threshold, map[],
           map i | 0 <= i < |targets| :: Label(targets[i]) := false)
  }

  class Checker {
    var upstreams: seq<Target>
    const failureThreshold: int
    var failureCounts: map<string, nat>
    var healthy: map<string, bool>

    ghost function View(): Health
      reads this
    {
      Health(upstreams, failureThreshold, failureCounts, healthy)
    }

    constructor (targets: seq<Target>, threshold: int)
      ensures View() == NewHealth(targets, threshold)
    {
      hide Label;
      upstreams := targets;
      failureThreshold := if threshold <= 0 then 3 else threshold;
      failureCounts := map[];
      var flags: map<string, bool> := map[];
      for i := 0 to |targets|
        invariant flags == map j | 0 <= j < i :: Label(targets[j]) := false
      {
        flags := flags[Label(targets[i]) := false];
      }
      healthy := flags;
    }

    method RecordFailure(name: string)
      modifies this
      ensures View() == Failed(old(View()), name)
    {
      failureCounts := failureCounts[name := (if name in failureCounts then failureCounts[name] else 0) + 1];
      if failureCounts[name] >= failureThreshold {
        healthy := healthy[name := false];
      }
    }

    method RecordHealthy(name: string)
      modifies this
      ensures View() == Recovered(old(View()), name)
    {
      failureCounts := failureCounts[name := 0];
      healthy := healthy[name := true];
    }

    method UpdateUpstreams(targets: seq<Target>)
      modifies this
      ensures View() == Updated(old(View()), targets)
    {
      hide Label, LabelsOf, Deduplicated;
      ghost var h := View();
      var labels, normalized := Normalize(targets);
      upstreams := normalized;
      DropOthers(labels);
      AddMissing(normalized, labels);
      SameMaps(failureCounts, Updated(h, targets).failures);
      SameMaps(healthy, Updated(h, targets).healthy);
    }

    static lemma SameMaps<V>(a: map<string, V>, b: map<string, V>)
      requires a.Keys == b.Keys && forall l :: l in a ==> a[l] == b[l]
      ensures a == b
    {
    }

    /** The first loop: normalize, label and drop repeated labels. */
    static method Normalize(targets: seq<Target>) returns (labels: set<string>, normalized: seq<Target>)
      ensures labels == LabelsOf(targets) && normalized == Deduplicated(targets)
      ensures forall l :: l in labels <==> exists i :: 0 <= i < |normalized| && Label(normalized[i]) == l
    {
      hide Label;
      labels, normalized := {}, [];
      for i := 0 to |targets|
        invariant labels == LabelsOf(targets[..i]) && normalized == Deduplicated(targets[..i])
        invariant forall l :: l in labels <==> exists j :: 0 <= j < |normalized| && Label(normalized[j]) == l
      {
        LabelsOfOneMore(targets, i);
        var upstream := NormalizedTarget(targets[i]);
        var name := Label(upstream);
        if name in labels {
          continue;
        }
        ghost var before := normalized;
        labels := labels + {name};
        normalized := normalized + [upstream];
        assert normalized[|before|] == upstream && forall j :: 0 <= j < |before| ==> normalized[j] == before[j];
      }
      assert targets[..|targets|] == targets;
    }

    /** The deletion loops: both maps lose every label that is not kept. */
    method DropOthers(labels: set<string>)
      modifies this`failureCounts, this`healthy
      ensures failureCounts.Keys == old(failureCounts).Keys * labels
      ensures healthy.Keys == old(healthy).Keys * labels
      ensures forall l :: l in failureCounts ==> failureCounts[l] == old(failureCounts)[l]
      ensures forall l :: l in healthy ==> healthy[l] == old(healthy)[l]
    {
      var pending := failureCounts.Keys;
      while pending != {}
        invariant pending <= failureCounts.Keys && healthy == old(healthy)
        invariant forall l :: l in failureCounts <==> l in old(failureCounts) && (l in pending || l in labels)
        invariant forall l :: l in failureCounts ==> failureCounts[l] == old(failureCounts)[l]
        decreases |pending|
      {
        var name :| name in pending;
        pending := pending - {name};
        if name !in labels {
          failureCounts := failureCounts - {name};
        }
      }
      ghost var counts := failureCounts;
      pending := healthy.Keys;
      while pending != {}
        invariant pending <= healthy.Keys && failureCounts == counts
        invariant forall l :: l in healthy <==> l in old(healthy) && (l in pending || l in labels)
        invariant forall l :: l in healthy ==> healthy[l] == old(healthy)[l]
        decreases |pending|
      {
        var name :| name in pending;
        pending := pending - {name};
        if name !in labels {
          healthy := healthy - {name};
        }
      }
    }

    /** The insertion loop: labels without state start at zero failures, unhealthy. */
    method AddMissing(normalized: seq<Target>, ghost labels: set<string>)
      requires forall l :: l in labels <==> exists i :: 0 <= i < |normalized| && Label(normalized[i]) == l
      modifies this`failureCounts, this`healthy
      ensures failureCounts.Keys == old(failureCounts).Keys + labels
      ensures healthy.Keys == old(healthy).Keys + labels
      ensures forall l :: l in failureCounts ==>
                failureCounts[l] == if l in old(failureCounts) then old(failureCounts)[l] else 0
      ensures forall l :: l in healthy ==> healthy[l] == (l in old(healthy) && old(healthy)[l])
    {
      hide Label;
      for i := 0 to |normalized|
        invariant forall l :: l in failureCounts <==>
                    l in old(failureCounts) || exists j :: 0 <= j < i && Label(normalized[j]) == l
        invariant forall l :: l in healthy <==> l in old(healthy) || exists j :: 0 <= j < i && Label(normalized[j]) == l
        invariant forall l :: l in failureCounts ==>
                    failureCounts[l] == if l in old(failureCounts) then old(failureCounts)[l] else 0
        invariant forall l :: l in healthy ==> healthy[l] == (l in old(healthy) && old(healthy)[l])
      {
        var name := Label(normalized[i]);
        if name !in failureCounts {
          failureCounts := failureCounts[name := 0];
        }
        if name !in healthy {
          healthy := healthy[name := false];
        }
      }
    }

    method HasHealthyUpstream() returns (some: bool)
      ensures some == SomeHealthy(View())
    {
      var pending := healthy.Keys;
      while pending != {}
        invariant pending <= healthy.Keys
        invariant forall l :: l in healthy && l !in pending ==> !healthy[l]
        decreases |pending|
      {
        var name :| name in pending;
        pending := pending - {name};
        if healthy[name] {
          assert HealthyOf(View(), name);
          return true;
        }
      }
      return false;
    }
  }

  lemma {:induction false} LabelsOfOneMore(targets: seq<Target>, i: nat)
    requires i < |targets|
    ensures targets[..i + 1][..i] == targets[..i] && targets[..i + 1][i] == targets[i]
    ensures LabelsOf(targets[..i + 1]) == LabelsOf(targets[..i]) + {Label(NormalizedTarget(targets[i]))}
  {
    hide Label, NormalizedTarget;
    var before, after := targets[..i], targets[..i + 1];
    assert after == before + [targets[i]];
    forall l ensures l in LabelsOf(after) <==> l in LabelsOf(before) || l == Label(NormalizedTarget(targets[i])) {
      if l in LabelsOf(before) {
        var j :| 0 <= j < i && l == Label(NormalizedTarget(before[j]));
        assert after[j] == before[j];
      }
      if l in LabelsOf(after) {
        var j :| 0 <= j < i + 1 && l == Label(NormalizedTarget(after[j]));
        assert j < i ==> before[j] == after[j];
      }
      assert after[i] == targets[i];
    }
  }

  // ---------------------------------------------------------------- history

  datatype Event = Failure(name: string) | Success(name: string) | Update(targets: seq<Target>)

  function Next(h: Health, e: Event): Health {
    match e
    case Failure(l) => Failed(h, l)
    case Success(l) => Recovered(h, l)
    case Update(targets) => Updated(h, targets)
  }

  function Run(h: Health, events: seq<Event>): Health {
    if events == [] then h else Next(Run(h, events[..|events| - 1]), events[|events| - 1])
  }

  predicate Drops(e: Event, name: string) {
    e.Update? && name !in LabelsOf(e.targets)
  }

  predicate Clears(e: Event, name: string) {
    e == Success(name) || Drops(e, name)
  }

  /** Failures of the label from event number `from` on. */
  function FailuresFrom(events: seq<Event>, name: string, from: nat): nat {
    if |events| <= from then 0 else
      FailuresFrom(events[..|events| - 1], name, from) + if events[|events| - 1] == Failure(name) then 1 else 0
  }

  /** The history the count is about starts after the last success or removal. */
  ghost predicate CountsFrom(events: seq<Event>, name: string, from: nat) {
    && from <= |events|
    && (from == 0 || Clears(events[from - 1], name))
    && (forall i :: from <= i < |events| ==> !Clears(events[i], name))
  }

  /** Some event the predicate holds of came after every removal of the label. */
  ghost predicate SinceKept(events: seq<Event>, name: string, starts: Event -> bool) {
    exists i :: 0 <= i < |events| && starts(events[i]) && KeptAfter(events, name, i)
  }

  ghost predicate KeptAfter(events: seq<Event>, name: string, i: int) {
    forall j :: i < j < |events| ==> 0 <= j && !Drops(events[j], name)
  }

  /** The label has succeeded and has not been removed since. */
  ghost predicate SucceededSinceKept(events: seq<Event>, name: string) {
    SinceKept(events, name, e => e == Success(name))
  }

  /** The label was configured or probed and has not been removed since. */
  ghost predicate NamedSinceKept(events: seq<Event>, name: string) {
    SinceKept(events, name, e => Names(e, name))
  }

  predicate Names(e: Event, name: string) {
    match e
    case Failure(l) => l == name
    case Success(l) => l == name
    case Update(targets) => name in LabelsOf(targets)
  }

  /** Where the history the count is about starts: after the last success or removal. */
  function CountStart(events: seq<Event>, name: string): nat {
    if events == [] || Clears(events[|events| - 1], name) then |events|
    else CountStart(events[..|events| - 1], name)
  }

  lemma {:induction false} CountStartIsLastClear(events: seq<Event>, name: string)
    ensures CountsFrom(events, name, CountStart(events, name))
  {
    hide Clears;
    if events != [] && !Clears(events[|events| - 1], name) {
      var past := events[..|events| - 1];
      CountStartIsLastClear(past, name);
      assert forall i :: 0 <= i < |past| ==> past[i] == events[i];
    }
  }

  lemma {:induction false} CountFrom(h: Health, events: seq<Event>, name: string, from: nat)
    requires h.failures == map[] && CountsFrom(events, name, from)
    ensures FailuresOf(Run(h, events), name) == FailuresFrom(events, name, from)
  {
    if events != [] {
      var past, e := events[..|events| - 1], events[|events| - 1];
      if from == |events| {
        assert Clears(e, name);
      } else {
        assert CountsFrom(past, name, from) by {
          assert forall i :: from <= i < |past| ==> past[i] == events[i];
        }
        CountFrom(h, past, name, from);
      }
    }
  }

  /** The failure count is the number of failures since the last success or removal. */
  lemma {:induction false} CountIsFailuresSinceSuccess(h: Health, events: seq<Event>, name: string)
    requires h.failures == map[]
    ensures var from := CountStart(events, name);
            CountsFrom(events, name, from) && FailuresOf(Run(h, events), name) == FailuresFrom(events, name, from)
  {
    CountStartIsLastClear(events, name);
    CountFrom(h, events, name, CountStart(events, name));
  }

  lemma SinceKeptOfOneMore(events: seq<Event>, name: string, starts: Event -> bool)
    requires events != []
    ensures var past, e := events[..|events| - 1], events[|events| - 1];
            SinceKept(events, name, starts) <==> starts(e) || (SinceKept(past, name, starts) && !Drops(e, name))
  {
    hide Drops;
    var past, e := events[..|events| - 1], events[|events| - 1];
    assert forall i :: 0 <= i < |past| ==> past[i] == events[i];
    if starts(e) {
      assert KeptAfter(events, name, |past|);
    }
    if SinceKept(past, name, starts) && !Drops(e, name) {
      var i :| 0 <= i < |past| && starts(past[i]) && KeptAfter(past, name, i);
      assert starts(events[i]) && KeptAfter(events, name, i);
    }
    if SinceKept(events, name, starts) && !starts(e) {
      var i :| 0 <= i < |events| && starts(events[i]) && KeptAfter(events, name, i);
      assert starts(past[i]) && KeptAfter(past, name, i);
    }
  }

  /**
   Hysteresis: over every history, overlapping probe passes included, a label is healthy if and
   only if it has succeeded since it was last removed and its failure count is below the threshold.
   */
  lemma {:induction false} HealthyIffSucceededBelowThreshold(
    targets: seq<Target>, threshold: int, events: seq<Event>, name: string)
    ensures var h := Run(NewHealth(targets, threshold), events);
            && h.threshold == (if threshold <= 0 then 3 else threshold)
            && (HealthyOf(h, name) <==> SucceededSinceKept(events, name) && FailuresOf(h, name) < h.threshold)
  {
    if events != [] {
      HealthyIffSucceededBelowThreshold(targets, threshold, events[..|events| - 1], name);
      SinceKeptOfOneMore(events, name, e => e == Success(name));
    }
  }

  /**
   Over every history the checker counts failures for exactly the labels configured by an update or
   probed, and not removed since; so a pass that overlaps an update can bring a removed label back.
   Right after an update both maps know exactly its labels, those kept with their state.
   */
  lemma {:induction false} TrackedIffNamedSinceKept(
    targets: seq<Target>, threshold: int, events: seq<Event>, name: string)
    ensures var h := Run(NewHealth(targets, threshold), events);
            && (name in h.failures <==> NamedSinceKept(events, name))
            && (name in h.healthy ==>
                  NamedSinceKept(events, name) ||
                  (name in NewHealth(targets, threshold).healthy && KeptAfter(events, name, -1)))
    ensures events != [] && events[|events| - 1].Update? ==>
              var before := Run(NewHealth(targets, threshold), events[..|events| - 1]);
              var h, labels := Run(NewHealth(targets, threshold), events), LabelsOf(events[|events| - 1].targets);
              && h.failures.Keys == h.healthy.Keys == labels
              && h.upstreams == Deduplicated(events[|events| - 1].targets)
              && (name in labels ==>
                    FailuresOf(h, name) == FailuresOf(before, name) && HealthyOf(h, name) == HealthyOf(before, name))
  {
    hide LabelsOf, Deduplicated, Label, SinceKept;
    if events == [] {
      assert !NamedSinceKept([], name) by { NothingSinceKept(name); }
    } else {
      var past := events[..|events| - 1];
      TrackedIffNamedSinceKept(targets, threshold, past, name);
      SinceKeptOfOneMore(events, name, e => Names(e, name));
      KeptOfOneMore(events, name);
    }
  }

  lemma NothingSinceKept(name: string)
    ensures !NamedSinceKept([], name)
  {
  }

  lemma KeptOfOneMore(events: seq<Event>, name: string)
    requires events != []
    ensures var past, e := events[..|events| - 1], events[|events| - 1];
            KeptAfter(events, name, -1) <==> KeptAfter(past, name, -1) && !Drops(e, name)
  {
    hide Drops;
    var past := events[..|events| - 1];
    assert forall i :: 0 <= i < |past| ==> past[i] == events[i];
  }

  /** Some upstream counts as healthy iff some label has succeeded, was kept, and is below the threshold. */
  lemma SomeHealthyIffSomeSucceeded(targets: seq<Target>, threshold: int, events: seq<Event>)
    ensures var h := Run(NewHealth(targets, threshold), events);
            SomeHealthy(h) <==>
            exists l :: SucceededSinceKept(events, l) && FailuresOf(h, l) < if threshold <= 0 then 3 else threshold
  {
    var h := Run(NewHealth(targets, threshold), events);
    forall l ensures HealthyOf(h, l) <==>
                     SucceededSinceKept(events, l) && FailuresOf(h, l) < if threshold <= 0 then 3 else threshold {
      HealthyIffSucceededBelowThreshold(targets, threshold, events, l);
    }
    hide HealthyOf, SucceededSinceKept;
  }
}
