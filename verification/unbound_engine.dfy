/**
 The lifecycle of the engine subprocess (pkg/engine/unbound/engine.go): the last configuration
 taken, the file written for it, and whether a process is tracked. What rendering, the file
 system, the process launcher and the control tool answer are parameters.
 */
module UnboundEngines {
  import opened Wrappers
  import opened Upstreams

  /** The engine configuration; `rest` stands for the settings only the engine reads. */
  datatype EngineConfig = EngineConfig(
    upstreams: seq<Upstream>, allow: seq<string>, deny: seq<string>, action: string, rest: string)

  /** How far Configure gets. A failed write may leave any text in the file. */
  datatype Writing = ContextWasDone | RenderFails | DirectoryFails | WriteFails | Written

  datatype StartError = AlreadyRunning | NotConfigured | ContextDone | LaunchFails

  /** `written` is the configuration the file holds, None when it holds none or a broken one. */
  datatype Engine = Engine(config: Option<EngineConfig>, written: Option<EngineConfig>, running: bool)

  function Configured(e: Engine, c: EngineConfig, w: Writing): Engine {
    match w
    case Written => e.(config := Some(c), written := Some(c))
    case WriteFails => e.(written := None)
    case _ => e
  }

  function Started(e: Engine, contextDone: bool, launches: bool): (Engine, Option<StartError>) {
    if e.running then (e, Some(AlreadyRunning))
    else if e.config.None? then (e, Some(NotConfigured))
    else if contextDone then (e, Some(ContextDone))
    else if !launches then (e, Some(LaunchFails))
    else (e.(running := true), None)
  }

  /** Whatever signalling and waiting return, the process is no longer tracked. */
  function Stopped(e: Engine): Engine {
    e.(running := false)
  }

  /** A start is refused for the first of four reasons, and otherwise leaves the engine running. */
  lemma StartRefusedFor(e: Engine, contextDone: bool, launches: bool)
    ensures var (after, error) := Started(e, contextDone, launches);
            && (error == Some(AlreadyRunning) <==> e.running)
            && (error == Some(NotConfigured) <==> !e.running && e.config.None?)
            && (error == Some(ContextDone) <==> !e.running && e.config.Some? && contextDone)
            && (error == Some(LaunchFails) <==> !e.running && e.config.Some? && !contextDone && !launches)
            && (error.Some? ==> after == e) && (error.None? ==> after == e.(running := true))
  {
  }

  class UnboundEngine {
    const configDir: string
    var configPath: string
    var config: Option<EngineConfig>
    var cmd: Option<nat>
    ghost var written: Option<EngineConfig>

    ghost predicate Valid()
      reads this
    {
      configPath != "" <==> config.Some?
    }

    ghost function View(): Engine
      reads this
    {
      Engine(config, written, cmd.Some?)
    }

    constructor (configDir: string)
      ensures Valid() && View() == Engine(None, None, false)
    {
      this.configDir, configPath, config, cmd := configDir, "", None, None;
      written := None;
    }

    method Configure(c: EngineConfig, w: Writing) returns (ok: bool)
      requires Valid()
      modifies this
      ensures Valid() && View() == Configured(old(View()), c, w) && ok == w.Written?
    {
      match w
      case Written =>
        written := Some(c);
        config := Some(c);
        configPath := configDir + "/unbound.conf";
        return true;
      case WriteFails =>
        written := None;
        return false;
      case _ =>
        return false;
    }

    method Start(contextDone: bool, launched: Option<nat>) returns (error: Option<StartError>)
      requires Valid()
      modifies this`cmd
      ensures Valid() && (View(), error) == Started(old(View()), contextDone, launched.Some?)
      ensures error.None? ==> cmd == launched
    {
      if cmd.Some? {
        return Some(AlreadyRunning);
      }
      if configPath == "" {
        return Some(NotConfigured);
      }
      if contextDone {
        return Some(ContextDone);
      }
      if launched.None? {
        return Some(LaunchFails);
      }
      cmd := launched;
      return None;
    }

    /** Changes no field; `applied` is what the control tool reports. */
    method Reload(contextDone: bool, applied: bool) returns (ok: bool)
      ensures ok <==> !contextDone && applied
    {
      return !contextDone && applied;
    }

    /** The process to signal, if any: it is cleared before it is signalled. */
    method Stop() returns (process: Option<nat>)
      requires Valid()
      modifies this`cmd
      ensures Valid() && View() == Stopped(old(View())) && process == old(cmd)
    {
      process := cmd;
      cmd := None;
    }
  }
}
