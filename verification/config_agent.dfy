/**
 The reload callback and the supervisor's tick of cmd/agent/main.go as they act on the real
 components. Each call performs a run of the machine in ConfigReloads with nothing in between.
 */
module ConfigAgents {
  import opened Wrappers
  import opened Texts
  import opened Messages
  import opened Upstreams
  import opened DomainFilters
  import opened UnboundEngines
  import opened ConfigReloads
  import Checking = HealthCheckers
  import Proxying = Proxies

  /** What the engine calls and the context answer during one callback. */
  datatype Answers = Answers(
    writing: Writing, reloaded: bool, canceled: bool, writingBack: Writing, reloadedBack: bool)

  /** How the callback ends. */
  ghost function OutcomeOf(env: Env, file: File, w: Answers): Outcome {
    var candidate := Load(env, file);
    if candidate.None? then ReadFailed
    else if !Validated(env, candidate.value) then Invalid
    else if w.writing.Written? && w.reloaded then Applied
    else if w.canceled then Canceled
    else if w.writingBack.Written? && w.reloadedBack then RolledBack
    else RollbackFailed
  }

  /** What each outcome says of the callback's inputs. */
  lemma OutcomesSayWhatHappened(env: Env, file: File, w: Answers)
    ensures var o, candidate := OutcomeOf(env, file, w), Load(env, file);
            var taken := w.writing.Written? && w.reloaded;
            var fit := candidate.Some? && Validated(env, candidate.value);
            && (o == ReadFailed <==> file == Unreadable) && (o == Invalid <==> candidate.Some? && !fit)
            && (o == Applied <==> fit && taken)
            && (o == Canceled <==> fit && !taken && w.canceled)
            && (o == RolledBack <==> fit && !taken && !w.canceled && w.writingBack.Written? && w.reloadedBack)
            && (o == RollbackFailed <==> fit && !taken && !w.canceled && !(w.writingBack.Written? && w.reloadedBack))
  {
    hide Validated;
  }

  // ---------------------------------------------------------------- the engine over whole callbacks

  datatype Callback = Callback(file: File, answers: Answers)

  ghost predicate Offers(env: Env, cb: Callback) {
    var candidate := Load(env, cb.file);
    candidate.Some? && Validated(env, candidate.value)
  }

  /** What one callback does to the current configuration and to the one the engine remembers. */
  ghost function AfterCallback(env: Env, current: EngineConfig, held: Option<EngineConfig>, cb: Callback)
    : (EngineConfig, Option<EngineConfig>)
  {
    var candidate, w := Load(env, cb.file), cb.answers;
    if !Offers(env, cb) then (current, held)
    else if w.writing.Written? && w.reloaded then (candidate.value, candidate)
    else if !w.canceled && w.writingBack.Written? then (current, Some(current))
    else (current, if w.writing.Written? then candidate else held)
  }

  ghost function AfterCallbacks(env: Env, current: EngineConfig, held: Option<EngineConfig>, cbs: seq<Callback>)
    : (EngineConfig, Option<EngineConfig>)
  {
    if cbs == [] then (current, held) else
      var (c, h) := AfterCallbacks(env, current, held, cbs[..|cbs| - 1]);
      AfterCallback(env, c, h, cbs[|cbs| - 1])
  }

  /** The callback takes a candidate other than the current configuration that it neither reloads nor replaces. */
  ghost predicate Loses(env: Env, current: EngineConfig, cb: Callback) {
    var w := cb.answers;
    && Offers(env, cb) && Load(env, cb.file) != Some(current)
    && w.writing.Written? && !w.reloaded && (w.canceled || !w.writingBack.Written?)
  }

  /** Some Configure of the callback writes. */
  ghost predicate Writes(env: Env, cb: Callback) {
    var w := cb.answers;
    Offers(env, cb) && (w.writing.Written? || (!w.canceled && w.writingBack.Written?))
  }

  ghost predicate LastWriter(env: Env, cbs: seq<Callback>, n: int) {
    0 <= n < |cbs| && Writes(env, cbs[n]) && forall j :: n < j < |cbs| ==> !Writes(env, cbs[j])
  }

  /** A callback that writes decides alone whether the engine then holds the current configuration. */
  lemma WriterDecides(env: Env, current: EngineConfig, held: Option<EngineConfig>, cb: Callback)
    ensures var (c, h) := AfterCallback(env, current, held, cb);
            && (Writes(env, cb) ==> (h == Some(c) <==> !Loses(env, current, cb)))
            && (Writes(env, cb) ==> (Loses(env, current, cb) <==> Loses(env, c, cb)))
            && (!Writes(env, cb) ==> c == current && h == held)
  {
  }

  /**
   Starting in step, after any callbacks the engine holds the current configuration if and only if
   the last callback that wrote anything did not lose it.
   */
  lemma {:induction false} EngineHoldsCurrentIffLastWriterKeepsIt(env: Env, current: EngineConfig, cbs: seq<Callback>)
    ensures var (c, h) := AfterCallbacks(env, current, Some(current), cbs);
            h == Some(c) <==> forall n :: LastWriter(env, cbs, n) ==> !Loses(env, c, cbs[n])
  {
    hide AfterCallback, Loses, Writes;
    if cbs != [] {
      var past, cb := cbs[..|cbs| - 1], cbs[|cbs| - 1];
      var (c, h) := AfterCallbacks(env, current, Some(current), past);
      EngineHoldsCurrentIffLastWriterKeepsIt(env, current, past);
      WriterDecides(env, c, h, cb);
      forall n ensures LastWriter(env, cbs, n) <==> if Writes(env, cb) then n == |past| else LastWriter(env, past, n) {
        assert forall j :: 0 <= j < |past| ==> cbs[j] == past[j];
      }
    }
  }

  /**
   Between callbacks a query is denied exactly when the current configuration's labels refuse its name,
   and the reply then says NXDOMAIN for the action "nxdomain" and REFUSED for the others.
   */
  lemma {:induction false} DeniedAsConfigured(
    a: Agent, steps: seq<Step>, c: Proxying.Caching.Cache, p: Proxying.Pooling.Pool, request: Msg, network: string,
    start: int, world: Proxying.World)
    requires Initial(a) && IsRun(a, steps) && Run(a, steps).pc.Idle?
    ensures var end := Run(a, steps);
            var reply := Proxying.Answered(end.filter, end.filterRcode, c, p, end.fallbacks,
                                           request, network, start, world).0;
            && (reply.origin == Proxying.Denied <==> !LabelsAllow(end.current.allow, end.current.deny, request))
            && (reply.origin == Proxying.Denied ==>
                  EmptyReply(reply.message, request, if end.current.action == "nxdomain" then 3 else 5))
  {
    hide Initial, IsRun, Run, FilterOf, LabelsAllow, Proxying.Answered, EmptyReply;
    EverythingDerivesFromTheLastGoodConfig(a, steps);
    var end := Run(a, steps);
    Proxying.DeniedIffLabelsRefuse(end.filter, end.current.allow, end.current.deny, end.filterRcode, c, p,
                                   end.fallbacks, request, network, start, world);
  }

  // ---------------------------------------------------------------- the code

  method HasBlank(patterns: seq<string>) returns (blank: bool)
    ensures blank == !NoBlank(patterns)
  {
    for i := 0 to |patterns|
      invariant NoBlank(patterns[..i])
    {
      if TrimSpace(patterns[i]) == "" {
        return true;
      }
    }
    return false;
  }

  method ValidateEngineConfig(env: Env, c: EngineConfig) returns (ok: bool)
    ensures ok == Validated(env, c)
  {
    if !env.restOk(c.rest) || |c.upstreams| == 0 {
      return false;
    }
    var rejected := ValidateUpstreams(c.upstreams, env.checks);
    if rejected.Some? {
      return false;
    }
    var blankAllow := HasBlank(c.allow);
    var blankDeny := HasBlank(c.deny);
    return !blankAllow && !blankDeny && (c.action == "" || c.action == "refused" || c.action == "nxdomain");
  }

  class ConfigAgent {
    const env: Env
    const checker: Checking.Checker
    const proxy: Proxying.Proxy
    const engine: UnboundEngine
    var currentConfig: EngineConfig
    var reloadTotal: nat
    var reloadErrors: nat
    var attempts: nat
    var recoveries: nat
    var recoveryErrors: nat
    ghost var calls: seq<Call>
    ghost var outcomes: seq<Outcome>

    ghost function View(pc: Pc, supervisor: Supervisor): Agent
      reads this, checker, proxy, engine
    {
      Agent(env, currentConfig, proxy.filter, proxy.filterRcode, proxy.fallbackUpstreams, checker.View(),
            engine.View(), pc, supervisor, reloadTotal, reloadErrors, attempts, recoveries, recoveryErrors,
            calls, outcomes)
    }

    /** The agent around its components, once the engine runs on the startup configuration. */
    constructor (env: Env, checker: Checking.Checker, proxy: Proxying.Proxy, engine: UnboundEngine, c: EngineConfig)
      requires Fit(env, c) && engine.Valid() && engine.View() == Engine(Some(c), Some(c), true)
      requires checker.upstreams == TargetsOf(c.upstreams)
      requires proxy.filter == FilterOf(c.allow, c.deny) && proxy.filterRcode == RcodeOf(c.action)
      requires proxy.fallbackUpstreams == FallbacksOf(c.upstreams)
      ensures Initial(View(Idle, Watching))
    {
      this.env, this.checker, this.proxy, this.engine, currentConfig := env, checker, proxy, engine, c;
      reloadTotal, reloadErrors, attempts, recoveries, recoveryErrors := 0, 0, 0, 0, 0;
      calls, outcomes := [], [];
    }

    /** applyConfigReload: the second step is only tried after the first succeeded. */
    method ApplyConfigReload(c: EngineConfig, writing: Writing, reloaded: bool) returns (ok: bool)
      requires engine.Valid()
      modifies engine, this`calls
      ensures engine.Valid() && engine.View() == Configured(old(engine.View()), c, writing)
      ensures engine.config == if writing.Written? then Some(c) else old(engine.config)
      ensures ok == (writing.Written? && reloaded)
      ensures calls == old(calls) + [Configure(c, writing.Written?)] +
                       if writing.Written? then [Reload(reloaded)] else []
    {
      ok := engine.Configure(c, writing);
      calls := calls + [Configure(c, ok)];
      if !ok {
        return false;
      }
      ok := engine.Reload(false, reloaded);
      calls := calls + [Reload(ok)];
    }

    method ReloadConfig(file: File, w: Answers) returns (outcome: Outcome, ghost steps: seq<Step>)
      requires engine.Valid()
      modifies this, checker, engine, proxy`filter, proxy`filterRcode, proxy`fallbackUpstreams
      ensures engine.Valid() && outcome == OutcomeOf(env, file, w) && outcomes == old(outcomes) + [outcome]
      ensures (currentConfig, engine.config) ==
              AfterCallback(env, old(currentConfig), old(engine.config), Callback(file, w))
      ensures var before := old(View(Idle, Watching));
              IsRun(before, steps) && Run(before, steps) == View(Idle, Watching)
    {
      hide Run, IsRun, Load, Validated, FilterOf, TargetsOf, FallbacksOf, Checking.Updated, Configured;
      ghost var before := View(Idle, Watching);
      steps := [];
      NoStepsYet(before);
      var candidate := Load(env, file);
      steps := More(before, steps, Trigger(file));
      if candidate.None? {
        reloadErrors, outcomes := reloadErrors + 1, outcomes + [ReadFailed];
        return ReadFailed, steps;
      }
      var newConfig := candidate.value;
      var fit := ValidateEngineConfig(env, newConfig);
      steps := More(before, steps, Validate);
      if !fit {
        reloadErrors, outcomes := reloadErrors + 1, outcomes + [Invalid];
        return Invalid, steps;
      }
      outcome, steps := TryCandidate(before, steps, newConfig, w);
    }

    /** The callback from the validated candidate on. */
    method TryCandidate(ghost before: Agent, ghost past: seq<Step>, newConfig: EngineConfig, w: Answers)
      returns (outcome: Outcome, ghost steps: seq<Step>)
      requires engine.Valid() && IsRun(before, past) && Run(before, past) == View(Valid(newConfig), Watching)
      modifies this, checker, engine, proxy`filter, proxy`filterRcode, proxy`fallbackUpstreams
      ensures engine.Valid() && outcomes == old(outcomes) + [outcome]
      ensures outcome == if w.writing.Written? && w.reloaded then Applied
                         else if w.canceled then Canceled
                         else if w.writingBack.Written? && w.reloadedBack then RolledBack else RollbackFailed
      ensures currentConfig == if outcome.Applied? then newConfig else old(currentConfig)
      ensures engine.config ==
              if w.writing.Written? && w.reloaded then Some(newConfig)
              else if !w.canceled && w.writingBack.Written? then Some(old(currentConfig))
              else if w.writing.Written? then Some(newConfig) else old(engine.config)
      ensures IsRun(before, steps) && Run(before, steps) == View(Idle, Watching)
    {
      hide Run, IsRun, Configured;
      var ok := ApplyConfigReload(newConfig, w.writing, w.reloaded);
      steps := More(before, past, ConfigureCandidate(w.writing));
      if w.writing.Written? {
        steps := More(before, steps, ReloadCandidate(w.reloaded));
      }
      if !ok {
        reloadErrors := reloadErrors + 1;
        outcome, steps := Recover(before, steps, w);
        return;
      }
      steps := Accept(before, steps, newConfig);
      return Applied, steps;
    }

    /** The success branch. */
    method Accept(ghost before: Agent, ghost past: seq<Step>, newConfig: EngineConfig) returns (ghost steps: seq<Step>)
      requires IsRun(before, past) && Run(before, past) == View(Accepting(newConfig), Watching)
      modifies this`currentConfig, this`reloadTotal, this`outcomes, checker, proxy`filter, proxy`filterRcode,
               proxy`fallbackUpstreams
      ensures currentConfig == newConfig && outcomes == old(outcomes) + [Applied]
      ensures IsRun(before, steps) && Run(before, steps) == View(Idle, Watching)
    {
      hide Run, IsRun, FilterOf, TargetsOf, FallbacksOf, Checking.Updated;
      steps := past + [SetChecker] + [SetFilter] + [SetFallbacks] + [Commit];
      AcceptingSteps(before, past, newConfig);
      checker.UpdateUpstreams(TargetsOf(newConfig.upstreams));
      var rcode := RCODE_REFUSED;
      if newConfig.action == "nxdomain" {
        rcode := RCODE_NAME_ERROR;
      }
      proxy.UpdateFilter(newConfig.allow, newConfig.deny, rcode);
      var fallbacks := FallbackUpstreamsFromConfig(newConfig.upstreams);
      proxy.UpdateFallbackUpstreams(fallbacks);
      currentConfig, reloadTotal, outcomes := newConfig, reloadTotal + 1, outcomes + [Applied];
    }

    static lemma AcceptingSteps(before: Agent, past: seq<Step>, c: EngineConfig)
      requires IsRun(before, past) && Run(before, past).pc == Accepting(c)
      ensures var steps := past + [SetChecker] + [SetFilter] + [SetFallbacks] + [Commit];
              var a := Run(before, past);
              IsRun(before, steps) &&
              Run(before, steps) == a.(
                current := c, checker := Checking.Updated(a.checker, TargetsOf(c.upstreams)),
                filter := FilterOf(c.allow, c.deny), filterRcode := RcodeOf(c.action),
                fallbacks := FallbacksOf(c.upstreams), pc := Idle, reloads := a.reloads + 1,
                outcomes := a.outcomes + [Applied])
    {
      hide Run, IsRun, FilterOf, TargetsOf, FallbacksOf, Checking.Updated;
      OneMoreStep(before, past, SetChecker);
      OneMoreStep(before, past + [SetChecker], SetFilter);
      OneMoreStep(before, past + [SetChecker] + [SetFilter], SetFallbacks);
      OneMoreStep(before, past + [SetChecker] + [SetFilter] + [SetFallbacks], Commit);
    }

    /** The error branch: give up when canceled, else go back to the current configuration. */
    method Recover(ghost before: Agent, ghost past: seq<Step>, w: Answers)
      returns (outcome: Outcome, ghost steps: seq<Step>)
      requires engine.Valid() && IsRun(before, past) && Run(before, past) == View(Failing, Watching)
      modifies this`calls, this`outcomes, engine
      ensures engine.Valid() && outcomes == old(outcomes) + [outcome]
      ensures engine.config == if !w.canceled && w.writingBack.Written? then Some(currentConfig) else old(engine.config)
      ensures outcome == if w.canceled then Canceled
                         else if w.writingBack.Written? && w.reloadedBack then RolledBack else RollbackFailed
      ensures IsRun(before, steps) && Run(before, steps) == View(Idle, Watching)
    {
      hide Run, IsRun, Configured;
      steps := More(before, past, LookForCancel(w.canceled));
      if w.canceled {
        outcomes := outcomes + [Canceled];
        return Canceled, steps;
      }
      var ok := ApplyConfigReload(currentConfig, w.writingBack, w.reloadedBack);
      steps := More(before, steps, ConfigureCurrent(w.writingBack));
      if w.writingBack.Written? {
        steps := More(before, steps, ReloadCurrent(w.reloadedBack));
      }
      outcome := if ok then RolledBack else RollbackFailed;
      outcomes := outcomes + [outcome];
    }

    static lemma NoStepsYet(a: Agent)
      ensures IsRun(a, []) && Run(a, []) == a
    {
    }

    static ghost method More(a: Agent, past: seq<Step>, step: Step) returns (steps: seq<Step>)
      requires IsRun(a, past) && Enabled(Run(a, past), step)
      ensures steps == past + [step] && IsRun(a, steps) && Run(a, steps) == Apply(Run(a, past), step)
    {
      OneMoreStep(a, past, step);
      steps := past + [step];
    }

    /** One tick of superviseEngine; a failed stop is only logged. */
    method SuperviseEngine(responsive: bool, contextDone: bool, launched: Option<nat>) returns (ghost steps: seq<Step>)
      requires engine.Valid()
      modifies this`attempts, this`recoveries, this`recoveryErrors, engine`cmd
      ensures engine.Valid()
      ensures var before := old(View(Idle, Watching));
              && steps == (if responsive then [Tick(true)]
                           else [Tick(false), SupervisorStop, SupervisorStart(contextDone, launched.Some?)])
              && IsRun(before, steps) && Run(before, steps) == View(Idle, Watching)
    {
      hide Run, IsRun;
      ghost var before := View(Idle, Watching);
      steps := [Tick(responsive)];
      NoStepsYet(before);
      OneMoreStep(before, [], Tick(responsive));
      if responsive {
        return;
      }
      steps := [Tick(responsive), SupervisorStop, SupervisorStart(contextDone, launched.Some?)];
      RestartSteps(before, contextDone, launched.Some?);
      attempts := attempts + 1;
      var _ := engine.Stop();
      var error := engine.Start(contextDone, launched);
      if error.Some? {
        recoveryErrors := recoveryErrors + 1;
      } else {
        recoveries := recoveries + 1;
      }
    }

    static lemma RestartSteps(before: Agent, contextDone: bool, launches: bool)
      requires before.supervisor.Watching?
      ensures var steps := [Tick(false), SupervisorStop, SupervisorStart(contextDone, launches)];
              var (engine, error) := Started(Stopped(before.engine), contextDone, launches);
              IsRun(before, steps) &&
              Run(before, steps) == before.(
                engine := engine, attempts := before.attempts + 1,
                recoveries := before.recoveries + (if error.None? then 1 else 0),
                recoveryErrors := before.recoveryErrors + (if error.Some? then 1 else 0))
    {
      hide Run, IsRun;
      NoStepsYet(before);
      OneMoreStep(before, [], Tick(false));
      OneMoreStep(before, [] + [Tick(false)], SupervisorStop);
      OneMoreStep(before, [] + [Tick(false)] + [SupervisorStop], SupervisorStart(contextDone, launches));
      assert [] + [Tick(false)] + [SupervisorStop] + [SupervisorStart(contextDone, launches)] ==
             [Tick(false), SupervisorStop, SupervisorStart(contextDone, launches)];
    }
  }
}
