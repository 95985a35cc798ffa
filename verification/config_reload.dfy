/**
 The agent's control loops in cmd/agent/main.go: the config-reload callback with its rollback, and
 the engine supervisor, sharing one engine. Each engine call, each update of a component and each
 assignment is one step; supervisor steps and health probe results may come between any two.
 */
module ConfigReloads {
  import opened Wrappers
  import opened Texts
  import opened Messages
  import opened Upstreams
  import opened DomainFilters
  import opened HealthCheckers
  import opened UnboundEngines

  // ---------------------------------------------------------------- loading and validating

  /** The checks and defaults that are not spelled out here. */
  datatype Env = Env(
    checks: Checks, restOk: string -> bool, fillRest: string -> string, defaultRest: string,
    tlsDefault: string -> string)

  datatype File = Unreadable | Missing | Holds(raw: EngineConfig)

  const DEFAULT_UPSTREAMS := [Upstream("1.1.1.1", 53, "dns", "", 1, 100)]

  function Load(env: Env, file: File): Option<EngineConfig> {
    match file
    case Unreadable => None
    case Missing => Some(EngineConfig(DEFAULT_UPSTREAMS, [], [], "", env.defaultRest))
    case Holds(raw) =>
      var upstreams := if raw.upstreams == [] then DEFAULT_UPSTREAMS else raw.upstreams;
      Some(raw.(upstreams := AllFilledIn(upstreams, env.tlsDefault), rest := env.fillRest(raw.rest)))
  }

  /** A missing file means the defaults; a file without upstreams the default upstream; the lists are kept. */
  lemma LoadKeepsWhatTheFileSays(env: Env, raw: EngineConfig)
    ensures var c, m := Load(env, Holds(raw)), Load(env, Missing);
            && Load(env, Unreadable) == None && c.Some? && m.Some?
            && c.value.allow == raw.allow && c.value.deny == raw.deny && c.value.action == raw.action
            && |c.value.upstreams| == (if raw.upstreams == [] then 1 else |raw.upstreams|)
            && (forall i :: 0 <= i < |raw.upstreams| ==>
                  c.value.upstreams[i] == FilledIn(raw.upstreams[i], env.tlsDefault))
            && (raw.upstreams == [] ==> c.value.upstreams == m.value.upstreams)
            && m.value.upstreams == [Upstream("1.1.1.1", 53, "dns", "", 1, 100)]
            && m.value.allow == m.value.deny == [] && m.value.action == ""
  {
    assert TrimSpace("dns") == "dns" && ToLower("dns") == "dns" && TrimSpace("") == "";
    assert FilledIn(DEFAULT_UPSTREAMS[0], env.tlsDefault) == DEFAULT_UPSTREAMS[0];
  }

  predicate NoBlank(patterns: seq<string>) {
    forall p :: p in patterns ==> TrimSpace(p) != ""
  }

  ghost predicate Validated(env: Env, c: EngineConfig) {
    && env.restOk(c.rest) && c.upstreams != [] && Accepted(c.upstreams, env.checks)
    && NoBlank(c.allow) && NoBlank(c.deny) && (c.action == "" || c.action == "refused" || c.action == "nxdomain")
  }

  /**
   A configuration is valid iff its other settings are, it has upstreams, each valid in itself and with
   a health label of its own, none of its filter patterns is blank, and its action is known.
   */
  lemma ValidatedIffEveryPartIs(env: Env, c: EngineConfig)
    ensures Validated(env, c) <==>
            && env.restOk(c.rest) && |c.upstreams| > 0
            && (forall i :: 0 <= i < |c.upstreams| ==> ProblemOf(c.upstreams[i], env.checks) == None)
            && (forall i, j :: 0 <= j < i < |c.upstreams| ==>
                  Label(TargetOf(c.upstreams[j])) != Label(TargetOf(c.upstreams[i])))
            && (forall i :: 0 <= i < |c.allow| ==> !AllBlank(c.allow[i]))
            && (forall i :: 0 <= i < |c.deny| ==> !AllBlank(c.deny[i]))
            && (c.action == "nxdomain" || c.action == "refused" || c.action == "")
  {
    AcceptedIffDistinctLabels(c.upstreams, env.checks);
    NoBlankIff(c.allow);
    NoBlankIff(c.deny);
    hide Accepted, NoBlank, AllBlank, ProblemOf, Label, TargetOf;
  }

  lemma NoBlankIff(patterns: seq<string>)
    ensures NoBlank(patterns) <==> forall i :: 0 <= i < |patterns| ==> !AllBlank(patterns[i])
  {
    hide TrimSpace, AllBlank;
    forall i | 0 <= i < |patterns| ensures TrimSpace(patterns[i]) == "" <==> AllBlank(patterns[i]) {
      TrimsToNothingIffBlank(patterns[i]);
    }
    assert forall i :: 0 <= i < |patterns| ==> patterns[i] in patterns;
  }

  /** A configuration the agent may run with: read from some file and validated. */
  ghost predicate Fit(env: Env, c: EngineConfig) {
    Validated(env, c) && exists file :: Load(env, file) == Some(c)
  }

  function RcodeOf(action: string): nat {
    if action == "nxdomain" then RCODE_NAME_ERROR else RCODE_REFUSED
  }

  /** The checker's de-duplication keeps every upstream of such a configuration, in order. */
  lemma {:induction false} TargetsAreKept(env: Env, c: EngineConfig)
    requires Fit(env, c)
    ensures Deduplicated(TargetsOf(c.upstreams)) == TargetsOf(c.upstreams)
  {
    var file :| Load(env, file) == Some(c);
    assert Accepted(c.upstreams, env.checks);
    hide Accepted, Validated;
    var raw := if file.Holds? && file.raw.upstreams != [] then file.raw.upstreams else DEFAULT_UPSTREAMS;
    assert TrimSpace("dns") == "dns" && ToLower("dns") == "dns" && TrimSpace("") == "";
    assert FilledIn(DEFAULT_UPSTREAMS[0], env.tlsDefault) == DEFAULT_UPSTREAMS[0];
    assert AllFilledIn(DEFAULT_UPSTREAMS, env.tlsDefault) == DEFAULT_UPSTREAMS;
    DeduplicationDropsNothing(raw, env.tlsDefault, env.checks);
  }

  /** Validation refuses blank patterns but not ".", which the filter drops: what survives is the rest. */
  lemma SurvivesParsingIffNotDot(patterns: seq<string>)
    requires NoBlank(patterns)
    ensures Effective(patterns) <==> exists i :: 0 <= i < |patterns| && TrimSpace(patterns[i]) != "."
  {
    forall i | 0 <= i < |patterns| ensures Normalized(patterns[i]) != "" <==> TrimSpace(patterns[i]) != "." {
      assert patterns[i] in patterns;
    }
  }

  /**
   A validated configuration refuses some name if and only if it denies more than dots, or allows
   more than dots but not everything.
   */
  lemma ValidatedFilterRefusesIff(env: Env, c: EngineConfig)
    requires Validated(env, c)
    ensures (exists d :: !IsAllowed(FilterOf(c.allow, c.deny), d)) <==>
            || (exists i :: 0 <= i < |c.deny| && TrimSpace(c.deny[i]) != ".")
            || ((exists i :: 0 <= i < |c.allow| && TrimSpace(c.allow[i]) != ".") && !HasStar(c.allow))
  {
    SurvivesParsingIffNotDot(c.allow);
    SurvivesParsingIffNotDot(c.deny);
    RefusesSomethingIff(c.allow, c.deny);
  }

  /** An allow list of dots restricts nothing: the deny list alone decides. */
  lemma DotsRestrictNothing(allow: seq<string>, deny: seq<string>, domain: string)
    requires forall p :: p in allow ==> TrimSpace(p) == "."
    ensures IsAllowed(FilterOf(allow, deny), domain) <==> IsAllowed(FilterOf([], deny), domain)
  {
    assert forall i :: 0 <= i < |allow| ==> allow[i] in allow;
    assert NoBlank(allow);
    SurvivesParsingIffNotDot(allow);
    FilterDecidesByLabels(allow, deny, domain);
    FilterDecidesByLabels([], deny, domain);
  }

  /** A configuration that validates and allows only ".": there is no filter, and every name passes. */
  lemma DotOnlyAllowsEverything(env: Env, c: EngineConfig, domain: string)
    requires Validated(env, c)
    ensures var dotted := c.(allow := ["."], deny := []);
            && Validated(env, dotted) && FilterOf(dotted.allow, dotted.deny) == None
            && IsAllowed(FilterOf(dotted.allow, dotted.deny), domain)
  {
    assert TrimSpace(".") == ".";
    ParsedMeansCovered(["."], domain);
    SurvivesParsingIffNotDot(["."]);
    DotsRestrictNothing(["."], [], domain);
  }

  // ---------------------------------------------------------------- the state machine

  /** How a callback ended. */
  datatype Outcome = ReadFailed | Invalid | Canceled | RollbackFailed | RolledBack | Applied

  /** What the callback asked of the engine, and whether it worked. */
  datatype Call = Configure(config: EngineConfig, ok: bool) | Reload(ok: bool)

  datatype Pc =
    | Idle
    | Read(candidate: EngineConfig)
    | Valid(candidate: EngineConfig)
    | Taken(candidate: EngineConfig)         // Configure succeeded
    | Failing                                // Configure or Reload failed
    | RollingBack
    | TakenBack
    | Accepting(candidate: EngineConfig)     // Reload succeeded
    | CheckerSet(candidate: EngineConfig)
    | FilterSet(candidate: EngineConfig)
    | FallbacksSet(candidate: EngineConfig)

  datatype Supervisor = Watching | MustStop | MustStart

  datatype Agent = Agent(
    env: Env, current: EngineConfig, filter: Option<DomainFilter>, filterRcode: nat, fallbacks: seq<string>,
    checker: Health, engine: Engine, pc: Pc, supervisor: Supervisor,
    reloads: nat, reloadErrors: nat, attempts: nat, recoveries: nat, recoveryErrors: nat,
    calls: seq<Call>, outcomes: seq<Outcome>)

  datatype Step =
    | Trigger(file: File)
    | Validate
    | ConfigureCandidate(writing: Writing)
    | ReloadCandidate(ok: bool)
    | LookForCancel(canceled: bool)
    | ConfigureCurrent(writing: Writing)
    | ReloadCurrent(ok: bool)
    | SetChecker
    | SetFilter
    | SetFallbacks
    | Commit
    | Probe(healthy: bool, name: string)
    | Tick(responsive: bool)
    | SupervisorStop
    | SupervisorStart(contextDone: bool, launches: bool)

  ghost predicate Enabled(a: Agent, step: Step) {
    match step
    case Trigger(_) => a.pc.Idle?
    case Validate => a.pc.Read?
    case ConfigureCandidate(_) => a.pc.Valid?
    case ReloadCandidate(_) => a.pc.Taken?
    case LookForCancel(_) => a.pc.Failing?
    case ConfigureCurrent(_) => a.pc.RollingBack?
    case ReloadCurrent(_) => a.pc.TakenBack?
    case SetChecker => a.pc.Accepting?
    case SetFilter => a.pc.CheckerSet?
    case SetFallbacks => a.pc.FilterSet?
    case Commit => a.pc.FallbacksSet?
    case Probe(_, _) => true
    case Tick(_) => a.supervisor.Watching?
    case SupervisorStop => a.supervisor.MustStop?
    case SupervisorStart(_, _) => a.supervisor.MustStart?
  }

  ghost function Ended(a: Agent, o: Outcome): Agent {
    a.(pc := Idle, outcomes := a.outcomes + [o])
  }

  /** One Configure by the callback. */
  ghost function Configuring(a: Agent, c: EngineConfig, w: Writing): Agent {
    a.(engine := Configured(a.engine, c, w), calls := a.calls + [Configure(c, w.Written?)])
  }

  ghost function Apply(a: Agent, step: Step): Agent
    requires Enabled(a, step)
  {
    match step
    case Trigger(file) =>
      var read := Load(a.env, file);
      if read.None? then Ended(a.(reloadErrors := a.reloadErrors + 1), ReadFailed) else a.(pc := Read(read.value))
    case Validate =>
      if Validated(a.env, a.pc.candidate) then a.(pc := Valid(a.pc.candidate))
      else Ended(a.(reloadErrors := a.reloadErrors + 1), Invalid)
    case ConfigureCandidate(w) =>
      var b := Configuring(a, a.pc.candidate, w);
      if w.Written? then b.(pc := Taken(a.pc.candidate)) else b.(pc := Failing, reloadErrors := a.reloadErrors + 1)
    case ReloadCandidate(ok) =>
      var b := a.(calls := a.calls + [Reload(ok)]);
      if ok then b.(pc := Accepting(a.pc.candidate)) else b.(pc := Failing, reloadErrors := a.reloadErrors + 1)
    case LookForCancel(canceled) => if canceled then Ended(a, Canceled) else a.(pc := RollingBack)
    case ConfigureCurrent(w) =>
      var b := Configuring(a, a.current, w);
      if w.Written? then b.(pc := TakenBack) else Ended(b, RollbackFailed)
    case ReloadCurrent(ok) =>
      Ended(a.(calls := a.calls + [Reload(ok)]), if ok then RolledBack else RollbackFailed)
    case SetChecker =>
      a.(pc := CheckerSet(a.pc.candidate), checker := Updated(a.checker, TargetsOf(a.pc.candidate.upstreams)))
    case SetFilter =>
      var c := a.pc.candidate;
      a.(pc := FilterSet(c), filter := FilterOf(c.allow, c.deny), filterRcode := RcodeOf(c.action))
    case SetFallbacks => a.(pc := FallbacksSet(a.pc.candidate), fallbacks := FallbacksOf(a.pc.candidate.upstreams))
    case Commit => Ended(a.(current := a.pc.candidate, reloads := a.reloads + 1), Applied)
    case Probe(healthy, name) =>
      a.(checker := if healthy then Recovered(a.checker, name) else Failed(a.checker, name))
    case Tick(responsive) => if responsive then a else a.(supervisor := MustStop, attempts := a.attempts + 1)
    case SupervisorStop => a.(engine := Stopped(a.engine), supervisor := MustStart)
    case SupervisorStart(contextDone, launches) =>
      var (engine, error) := Started(a.engine, contextDone, launches);
      if error.Some? then a.(supervisor := Watching, recoveryErrors := a.recoveryErrors + 1)
      else a.(supervisor := Watching, engine := engine, recoveries := a.recoveries + 1)
  }

  /** The agent once its engine has been configured and started with its first configuration. */
  ghost predicate Initial(a: Agent) {
    && Fit(a.env, a.current) && FollowsChecker(a, a.current) && FollowsFilter(a, a.current)
    && FollowsFallbacks(a, a.current)
    && a.engine == Engine(Some(a.current), Some(a.current), true)
    && a.pc.Idle? && a.supervisor.Watching? && a.calls == [] && a.outcomes == []
    && a.reloads == a.reloadErrors == a.attempts == a.recoveries == a.recoveryErrors == 0
  }

  ghost predicate IsRun(a: Agent, steps: seq<Step>)
    decreases |steps|, 0
  {
    steps == [] ||
    (IsRun(a, steps[..|steps| - 1]) && Enabled(Run(a, steps[..|steps| - 1]), steps[|steps| - 1]))
  }

  ghost function Run(a: Agent, steps: seq<Step>): Agent
    requires IsRun(a, steps)
    decreases |steps|, 1
  {
    if steps == [] then a else Apply(Run(a, steps[..|steps| - 1]), steps[|steps| - 1])
  }

  // ---------------------------------------------------------------- what every step keeps

  ghost predicate FollowsChecker(a: Agent, c: EngineConfig) {
    a.checker.upstreams == TargetsOf(c.upstreams)
  }

  ghost predicate FollowsFilter(a: Agent, c: EngineConfig) {
    a.filter == FilterOf(c.allow, c.deny) && a.filterRcode == RcodeOf(c.action)
  }

  ghost predicate FollowsFallbacks(a: Agent, c: EngineConfig) {
    a.fallbacks == FallbacksOf(c.upstreams)
  }

  /** The last configuration the engine took and then reloaded; `first` when there is none. */
  ghost function LastGood(first: EngineConfig, calls: seq<Call>): EngineConfig {
    var n := |calls|;
    if n < 2 then first
    else if calls[n - 1] == Reload(true) && calls[n - 2].Configure? && calls[n - 2].ok then calls[n - 2].config
    else LastGood(first, calls[..n - 1])
  }

  ghost function LastTaken(first: EngineConfig, calls: seq<Call>): EngineConfig {
    if calls == [] then first
    else var last := calls[|calls| - 1];
      if last.Configure? && last.ok then last.config else LastTaken(first, calls[..|calls| - 1])
  }

  ghost predicate ConfigurationsFollow(a: Agent) {
    var pc, current := a.pc, a.current;
    && FollowsChecker(a, if pc.CheckerSet? || pc.FilterSet? || pc.FallbacksSet? then pc.candidate else current)
    && FollowsFilter(a, if pc.FilterSet? || pc.FallbacksSet? then pc.candidate else current)
    && FollowsFallbacks(a, if pc.FallbacksSet? then pc.candidate else current)
  }

  ghost predicate CandidateFit(a: Agent) {
    && Fit(a.env, a.current)
    && (a.pc.Read? ==> exists file :: Load(a.env, file) == Some(a.pc.candidate))
    && (a.pc.Valid? || a.pc.Taken? || a.pc.Accepting? || a.pc.CheckerSet? || a.pc.FilterSet? || a.pc.FallbacksSet?
        ==> Fit(a.env, a.pc.candidate))
  }

  /** The engine is only ever asked to take configurations fit to run. */
  ghost predicate OnlyFitConfigured(a: Agent) {
    forall i :: 0 <= i < |a.calls| && a.calls[i].Configure? ==> Fit(a.env, a.calls[i].config)
  }

  ghost predicate Committing(pc: Pc) {
    pc.Accepting? || pc.CheckerSet? || pc.FilterSet? || pc.FallbacksSet?
  }

  ghost predicate CallsAgree(a: Agent, first: EngineConfig) {
    var n := |a.calls|;
    && LastGood(first, a.calls) == (if Committing(a.pc) then a.pc.candidate else a.current)
    && a.engine.config == Some(LastTaken(first, a.calls))
    && (a.pc.Taken? ==> n > 0 && a.calls[n - 1] == Configure(a.pc.candidate, true))
    && (a.pc.TakenBack? ==> n > 0 && a.calls[n - 1] == Configure(a.current, true))
  }

  ghost function Count(outcomes: seq<Outcome>, applied: bool): nat {
    if outcomes == [] then 0 else
      Count(outcomes[..|outcomes| - 1], applied) + if outcomes[|outcomes| - 1].Applied? == applied then 1 else 0
  }

  ghost predicate CountersAgree(a: Agent) {
    && a.reloads == Count(a.outcomes, true)
    && a.reloadErrors == Count(a.outcomes, false) +
       (if a.pc.Failing? || a.pc.RollingBack? || a.pc.TakenBack? then 1 else 0)
    && a.attempts == a.recoveries + a.recoveryErrors + if a.supervisor.Watching? then 0 else 1
  }

  /** Every callback since the last applied or rolled-back one stopped before touching the engine. */
  ghost predicate InSync(outcomes: seq<Outcome>) {
    outcomes == [] ||
    var last := outcomes[|outcomes| - 1];
    last.Applied? || last.RolledBack? || ((last.ReadFailed? || last.Invalid?) && InSync(outcomes[..|outcomes| - 1]))
  }

  ghost predicate EngineHas(a: Agent, c: EngineConfig) {
    a.engine.config == a.engine.written == Some(c)
  }

  ghost predicate EngineInSync(a: Agent) {
    if a.pc.Taken? || Committing(a.pc) then EngineHas(a, a.pc.candidate)
    else if a.pc.TakenBack? then EngineHas(a, a.current)
    else (a.pc.Idle? || a.pc.Read? || a.pc.Valid?) && InSync(a.outcomes) ==> EngineHas(a, a.current)
  }

  ghost predicate SupervisorReady(a: Agent) {
    a.engine.config.Some? && (a.supervisor.MustStart? ==> !a.engine.running)
  }

  ghost predicate Inv(a: Agent, first: EngineConfig) {
    && ConfigurationsFollow(a) && CandidateFit(a) && OnlyFitConfigured(a) && CallsAgree(a, first) && CountersAgree(a)
    && EngineInSync(a) && SupervisorReady(a)
  }

  lemma {:induction false} StepKeepsConfigurations(a: Agent, step: Step)
    requires ConfigurationsFollow(a) && CandidateFit(a) && Enabled(a, step)
    ensures ConfigurationsFollow(Apply(a, step)) && CandidateFit(Apply(a, step))
  {
    hide TargetsOf, Deduplicated, FilterOf, FallbacksOf, Load, Validated, Configured, Started, LabelsOf, RcodeOf;
    if step.SetChecker? {
      TargetsAreKept(a.env, a.pc.candidate);
    }
    if step.Trigger? && Load(a.env, step.file).Some? {
      assert Load(a.env, step.file) == Some(Apply(a, step).pc.candidate);
    }
  }

  lemma StepConfiguresOnlyFit(a: Agent, step: Step)
    requires CandidateFit(a) && OnlyFitConfigured(a) && Enabled(a, step)
    ensures OnlyFitConfigured(Apply(a, step))
  {
  }

  lemma CallsOfOneMore(first: EngineConfig, calls: seq<Call>, call: Call)
    ensures LastTaken(first, calls + [call]) ==
            if call.Configure? && call.ok then call.config else LastTaken(first, calls)
    ensures var n := |calls|;
            LastGood(first, calls + [call]) ==
            if call == Reload(true) && n > 0 && calls[n - 1].Configure? && calls[n - 1].ok then calls[n - 1].config
            else LastGood(first, calls)
  {
  }

  predicate CallsEngine(step: Step) {
    step.ConfigureCandidate? || step.ReloadCandidate? || step.ConfigureCurrent? || step.ReloadCurrent?
  }

  lemma {:induction false} EngineCallKeepsCalls(a: Agent, first: EngineConfig, step: Step)
    requires CallsAgree(a, first) && Enabled(a, step) && CallsEngine(step)
    ensures CallsAgree(Apply(a, step), first)
  {
    hide LastGood, LastTaken;
    CallsOfOneMore(first, a.calls, Apply(a, step).calls[|a.calls|]);
  }

  lemma {:induction false} OtherStepKeepsCalls(a: Agent, first: EngineConfig, step: Step)
    requires CallsAgree(a, first) && Enabled(a, step) && !CallsEngine(step)
    ensures CallsAgree(Apply(a, step), first)
  {
    hide TargetsOf, FilterOf, FallbacksOf, Load, Validated, Updated, LastGood, LastTaken;
  }

  lemma {:induction false} StepKeepsCalls(a: Agent, first: EngineConfig, step: Step)
    requires CallsAgree(a, first) && Enabled(a, step)
    ensures CallsAgree(Apply(a, step), first)
  {
    hide Apply, Enabled, CallsAgree;
    if CallsEngine(step) {
      EngineCallKeepsCalls(a, first, step);
    } else {
      OtherStepKeepsCalls(a, first, step);
    }
  }

  lemma OutcomesOfOneMore(outcomes: seq<Outcome>, o: Outcome)
    ensures forall applied ::
              Count(outcomes + [o], applied) == Count(outcomes, applied) + if o.Applied? == applied then 1 else 0
    ensures InSync(outcomes + [o]) <==>
            o.Applied? || o.RolledBack? || ((o.ReadFailed? || o.Invalid?) && InSync(outcomes))
  {
  }

  lemma {:induction false} StepKeepsCountersAndEngine(a: Agent, first: EngineConfig, step: Step)
    requires CountersAgree(a) && EngineInSync(a) && SupervisorReady(a) && Enabled(a, step)
    ensures CountersAgree(Apply(a, step)) && EngineInSync(Apply(a, step)) && SupervisorReady(Apply(a, step))
  {
    hide TargetsOf, Deduplicated, FilterOf, FallbacksOf, Load, Validated, LabelsOf, Updated, Count, InSync;
    var a' := Apply(a, step);
    if a'.outcomes != a.outcomes {
      OutcomesOfOneMore(a.outcomes, a'.outcomes[|a.outcomes|]);
    }
  }

  lemma StepKeepsInv(a: Agent, first: EngineConfig, step: Step)
    requires Inv(a, first) && Enabled(a, step)
    ensures Inv(Apply(a, step), first)
  {
    hide Apply, ConfigurationsFollow, CandidateFit, OnlyFitConfigured, CallsAgree, CountersAgree, EngineInSync,
         SupervisorReady;
    StepKeepsConfigurations(a, step);
    StepConfiguresOnlyFit(a, step);
    StepKeepsCalls(a, first, step);
    StepKeepsCountersAndEngine(a, first, step);
  }

  lemma InitialInv(a: Agent)
    requires Initial(a)
    ensures Inv(a, a.current)
  {
    hide Fit, TargetsOf, FilterOf, FallbacksOf;
  }

  lemma {:induction false} RunKeepsInv(a: Agent, steps: seq<Step>)
    requires Initial(a) && IsRun(a, steps)
    ensures Inv(Run(a, steps), a.current)
  {
    hide Inv, Initial, Apply, Enabled;
    if steps == [] {
      InitialInv(a);
    } else {
      RunKeepsInv(a, steps[..|steps| - 1]);
      StepKeepsInv(Run(a, steps[..|steps| - 1]), a.current, steps[|steps| - 1]);
    }
  }

  // ---------------------------------------------------------------- the main results

  /**
   Between callbacks, whatever the supervisor and the probes did meanwhile, checker targets, filter,
   rcode and fallback list all derive from the current configuration, which was read, validated,
   and is the last one the engine both took and reloaded. No rejected candidate shows anywhere.
   */
  lemma {:induction false} EverythingDerivesFromTheLastGoodConfig(a: Agent, steps: seq<Step>)
    requires Initial(a) && IsRun(a, steps) && Run(a, steps).pc.Idle?
    ensures var end := Run(a, steps);
            && end.current == LastGood(a.current, end.calls) && Fit(end.env, end.current)
            && ProbesEvery(end.checker.upstreams, end.current.upstreams)
            && end.filter == FilterOf(end.current.allow, end.current.deny)
            && (end.filterRcode == 3 <==> end.current.action == "nxdomain")
            && (end.filterRcode == 5 <==> end.current.action == "refused" || end.current.action == "")
            && end.fallbacks == FallbacksOf(end.current.upstreams)
  {
    RunKeepsInv(a, steps);
  }

  /** One target per upstream, in order, with its address, port, transport and TLS name, and at least one. */
  ghost predicate ProbesEvery(targets: seq<Target>, upstreams: seq<Upstream>) {
    && |targets| == |upstreams| > 0
    && forall i :: 0 <= i < |targets| ==>
         var t, u := targets[i], upstreams[i];
         t.address == u.address && t.port == u.port && t.transport == u.transport && t.tlsServerName == u.tlsServerName
  }

  /**
   Between callbacks the engine's last Configure, and its file, hold the current configuration
   unless a callback since the last applied or rolled-back one was canceled or failed to roll back.
   */
  lemma {:induction false} AppliedOrRolledBackLeavesCurrent(a: Agent, steps: seq<Step>)
    requires Initial(a) && IsRun(a, steps) && Run(a, steps).pc.Idle? && InSync(Run(a, steps).outcomes)
    ensures var end := Run(a, steps);
            && end.engine.config == end.engine.written == Some(end.current)
            && LastTaken(a.current, end.calls) == end.current
  {
    RunKeepsInv(a, steps);
  }

  // What the callback last put into the engine, and into its file.

  datatype Write = Nothing | Broken | Current | Candidate(config: EngineConfig, reloaded: bool)

  /** The last write after one more step by an agent in the given state. */
  function NextWrite(a: Agent, step: Step, before: Write, inFile: bool): Write {
    match step
    case ConfigureCandidate(w) =>
      if w.Written? && a.pc.Valid? then Candidate(a.pc.candidate, false)
      else if w.WriteFails? && inFile then Broken else before
    case ReloadCandidate(ok) => if ok && a.pc.Taken? then Candidate(a.pc.candidate, true) else before
    case ConfigureCurrent(w) => if w.Written? then Current else if w.WriteFails? && inFile then Broken else before
    case _ => before
  }

  /** The last Configure that wrote. One that fails while writing breaks only the file. */
  ghost function LastWrite(a: Agent, steps: seq<Step>, inFile: bool): Write
    requires IsRun(a, steps)
    decreases |steps|
  {
    if steps == [] then Nothing else
      var past := steps[..|steps| - 1];
      NextWrite(Run(a, past), steps[|steps| - 1], LastWrite(a, past, inFile), inFile)
  }

  /** It left something other than the current configuration. */
  predicate Strays(w: Write, current: EngineConfig) {
    w.Broken? || (w.Candidate? && !w.reloaded && w.config != current)
  }

  function HeldBy(e: Engine, inFile: bool): Option<EngineConfig> {
    if inFile then e.written else e.config
  }

  ghost predicate WriteAgrees(a: Agent, w: Write, inFile: bool) {
    var held := HeldBy(a.engine, inFile);
    && (a.pc.Taken? ==> w == Candidate(a.pc.candidate, false))
    && (Committing(a.pc) ==> w == Candidate(a.pc.candidate, true))
    && match w
       case Nothing => held == Some(a.current)
       case Current => held == Some(a.current)
       case Broken => held == None
       case Candidate(c, reloaded) => held == Some(c) && (reloaded && !Committing(a.pc) ==> c == a.current)
  }

  lemma WriteAgreesAfter(a: Agent, step: Step, w: Write, inFile: bool)
    requires Enabled(a, step) && WriteAgrees(a, w, inFile)
    ensures WriteAgrees(Apply(a, step), NextWrite(a, step, w, inFile), inFile)
  {
    hide TargetsOf, FilterOf, FallbacksOf, Load, Validated, Updated, LabelsOf;
  }

  lemma {:induction false} WriteAgreesAlongRun(a: Agent, steps: seq<Step>, inFile: bool)
    requires Initial(a) && IsRun(a, steps)
    ensures WriteAgrees(Run(a, steps), LastWrite(a, steps, inFile), inFile)
  {
    hide Fit, FollowsChecker, FollowsFilter, FollowsFallbacks, Apply, Enabled, NextWrite;
    if steps != [] {
      var past := steps[..|steps| - 1];
      WriteAgreesAlongRun(a, past, inFile);
      WriteAgreesAfter(Run(a, past), steps[|past|], LastWrite(a, past, inFile), inFile);
    }
  }

  /**
   Between callbacks the engine remembers the current configuration, and likewise its file holds it,
   if and only if the last write did not stray: it did not break the file, and it was not a candidate
   that differs from the current configuration and was not reloaded.
   */
  lemma {:induction false} EngineHoldsCurrentIffLastWriteDidNotStray(a: Agent, steps: seq<Step>)
    requires Initial(a) && IsRun(a, steps) && Run(a, steps).pc.Idle?
    ensures var end := Run(a, steps);
            && (end.engine.config == Some(end.current) <==> !Strays(LastWrite(a, steps, false), end.current))
            && (end.engine.written == Some(end.current) <==> !Strays(LastWrite(a, steps, true), end.current))
  {
    hide Initial, Run, IsRun, LastWrite;
    WriteAgreesAlongRun(a, steps, false);
    WriteAgreesAlongRun(a, steps, true);
  }

  lemma {:induction false} EngineIsNeverGivenAnUnfitConfig(a: Agent, steps: seq<Step>, c: EngineConfig, ok: bool)
    requires Initial(a) && IsRun(a, steps) && Configure(c, ok) in Run(a, steps).calls
    ensures Fit(Run(a, steps).env, c)
  {
    RunKeepsInv(a, steps);
  }

  // The checker's own history: probe results and the updates of committed candidates.

  ghost function CheckerEvents(a: Agent, steps: seq<Step>): seq<HealthCheckers.Event>
    requires IsRun(a, steps)
    decreases |steps|
  {
    if steps == [] then [] else
      var past := steps[..|steps| - 1];
      CheckerEvents(a, past) +
      match steps[|steps| - 1]
      case Probe(healthy, name) => [if healthy then HealthCheckers.Success(name) else HealthCheckers.Failure(name)]
      case SetChecker => [HealthCheckers.Update(TargetsOf(Run(a, past).pc.candidate.upstreams))]
      case _ => []
  }

  /** The checker is its own run over that history, so its hysteresis holds across reloads. */
  lemma {:induction false} CheckerFollowsItsEvents(a: Agent, steps: seq<Step>)
    requires IsRun(a, steps)
    ensures Run(a, steps).checker == HealthCheckers.Run(a.checker, CheckerEvents(a, steps))
  {
    hide TargetsOf, Deduplicated, FilterOf, FallbacksOf, Load, Validated, LabelsOf, Updated, Failed, Recovered;
    if steps != [] {
      var past := steps[..|steps| - 1];
      CheckerFollowsItsEvents(a, past);
      var before, events := CheckerEvents(a, past), CheckerEvents(a, steps);
      if events != before {
        assert |events| == |before| + 1 && events[..|before|] == before;
      }
    }
  }

  /** Each finished callback bumps exactly one of the two counters. */
  lemma {:induction false} OneCounterPerCallback(a: Agent, steps: seq<Step>)
    requires Initial(a) && IsRun(a, steps) && Run(a, steps).pc.Idle?
    ensures var end := Run(a, steps);
            && end.reloads + end.reloadErrors == |end.outcomes|
            && end.reloads == Count(end.outcomes, true)
  {
    RunKeepsInv(a, steps);
    EveryOutcomeCounted(Run(a, steps).outcomes);
  }

  lemma {:induction false} EveryOutcomeCounted(outcomes: seq<Outcome>)
    ensures Count(outcomes, true) + Count(outcomes, false) == |outcomes|
  {
    if outcomes != [] {
      EveryOutcomeCounted(outcomes[..|outcomes| - 1]);
    }
  }

  /** Every recovery attempt ends as exactly one success or error, unless it is still under way. */
  lemma {:induction false} EveryAttemptCounted(a: Agent, steps: seq<Step>)
    requires Initial(a) && IsRun(a, steps)
    ensures var end := Run(a, steps);
            end.attempts == end.recoveries + end.recoveryErrors + if end.supervisor.Watching? then 0 else 1
  {
    RunKeepsInv(a, steps);
  }

  /** A supervisor restart is never refused for its lifecycle: only the context or the launch can fail it. */
  lemma {:induction false} RestartsFailOnlyToLaunch(a: Agent, steps: seq<Step>, contextDone: bool, launches: bool)
    requires Initial(a) && IsRun(a, steps) && Run(a, steps).supervisor.MustStart?
    ensures var (engine, error) := Started(Run(a, steps).engine, contextDone, launches);
            && (error.None? <==> !contextDone && launches)
            && error != Some(AlreadyRunning) && error != Some(NotConfigured) && (engine.running <==> error.None?)
  {
    RunKeepsInv(a, steps);
  }

  // ---------------------------------------------------------------- how a rollback is lost

  lemma OneMoreStep(a: Agent, steps: seq<Step>, step: Step)
    requires IsRun(a, steps) && Enabled(Run(a, steps), step)
    ensures IsRun(a, steps + [step]) && Run(a, steps + [step]) == Apply(Run(a, steps), step)
  {
  }

  /** A cancellation after a failed reload leaves the rejected candidate in the engine, and only there. */
  lemma {:induction false} CancellationLeavesTheCandidate(a: Agent, file: File) returns (steps: seq<Step>)
    requires Initial(a) && Load(a.env, file).Some? && Validated(a.env, Load(a.env, file).value)
    ensures IsRun(a, steps) && Run(a, steps).pc.Idle? && Run(a, steps).current == a.current
    ensures Run(a, steps).engine.config == Load(a.env, file)
  {
    hide Load, Validated, Fit, FollowsChecker, FollowsFilter, FollowsFallbacks;
    steps := [];
    var path := [Trigger(file), Validate, ConfigureCandidate(Written), ReloadCandidate(false), LookForCancel(true)];
    for i := 0 to 5
      invariant IsRun(a, steps) && Run(a, steps).current == a.current && Run(a, steps).env == a.env
      invariant var end := Run(a, steps);
        match i
        case 0 => end.pc.Idle?
        case 1 => end.pc.Read? && Some(end.pc.candidate) == Load(a.env, file)
        case 2 => end.pc.Valid? && Some(end.pc.candidate) == Load(a.env, file)
        case 3 => end.pc.Taken? && end.engine.config == Load(a.env, file)
        case 4 => end.pc.Failing? && end.engine.config == Load(a.env, file)
        case _ => end.pc.Idle? && end.engine.config == Load(a.env, file)
    {
      OneMoreStep(a, steps, path[i]);
      steps := steps + [path[i]];
    }
  }
}
