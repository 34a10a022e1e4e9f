/** `RunnerManager` itself, updated in place, method by method against the registry's steps. */
module RunnerManagers {
  import opened Prelude
  import opened Processes
  import opened Registry

  class RunnerManager {
    var runners: map<string, Info>
    const os: Os
    const config: Config

    constructor (os: Os, config: Config)
      ensures this.os == os && this.config == config && runners == map[]
    {
      this.os, this.config := os, config;
      runners := map[];
    }

    function State(): World
      reads this, os
    {
      World(runners, os.children, os.log)
    }

    method SpawnRunner(name: string, binary: string, env: StartEnv) returns (info: Option<Info>)
      modifies this, os
      ensures (State(), info) == Spawn(old(State()), name, binary, env)
    {
      var pid := os.SpawnProcess(env.pid);
      if pid < 0 {
        return None;
      }
      var entry := Info(name, binary, env.stem, env.port, pid, env.path);
      var ok := false;
      for i := 0 to PROBES
        invariant runners == old(runners) && os.children == old(os.children) + {pid}
        invariant os.log == old(os.log) + [Spawned(pid)]
        invariant !ok && HealthyFrom(env.healthy, 0) == HealthyFrom(env.healthy, i)
      {
        if env.healthy(i) {
          ok := true;
          break;
        }
      }
      if !ok {
        os.KillProcess(pid, Term);
        os.WaitProcess(pid);
        assert os.log == old(os.log) + [Spawned(pid)] + [Signalled(pid, Term), Reaped(pid)];
        return None;
      }
      runners := runners[name := entry];
      return Some(entry);
    }

    method GetOrStart(model: string, env: StartEnv) returns (info: Option<Info>)
      modifies this, os
      ensures (State(), info) == Registry.GetOrStart(config, old(State()), model, env)
    {
      if model in runners {
        return Some(runners[model]);
      }
      if !env.found {
        return None;
      }
      if env.port <= 0 {
        return None;
      }
      info := SpawnRunner(model, RunnerForModel(config, model), env);
    }

    method Start(model: string, env: StartEnv) returns (r: Outcome<bool>)
      modifies this, os
      ensures (State(), r) == Registry.Start(config, old(State()), model, env)
    {
      var info := GetOrStart(model, env);
      if info.None? {
        return Failure(ModelError, "Failed to start runner for " + model);
      }
      return Success(true);
    }

    method StartRunner(name: string, binary: string, kind: string, env: StartEnv) returns (r: Outcome<bool>)
      modifies this, os
      ensures (State(), r) == Registry.StartRunner(config, old(State()), name, binary, kind, env)
    {
      if name in runners {
        return Failure(AlreadyExists, "Runner already running: " + name);
      }
      if !env.found {
        return Failure(NotFound, "Model file not found: " + env.path);
      }
      var effective := binary;
      if effective == "" {
        effective := RunnerForModel(config, env.stem);
      }
      if effective == "" && kind != "" {
        effective := if kind in config.byType then config.byType[kind] else "";
      }
      if env.port <= 0 {
        return Failure(ModelError, "Failed to find free port");
      }
      var info := SpawnRunner(name, effective, env);
      if info.None? {
        return Failure(ModelError, "Failed to start runner: " + name);
      }
      return Success(true);
    }

    method Stop(name: string, alive: nat -> bool)
      modifies this, os
      ensures State() == Registry.Stop(old(State()), name, alive)
    {
      if name !in runners {
        return;
      }
      StopWithTimeout(os, runners[name].pid, alive);
      runners := runners - {name};
    }

    /** First pass: SIGTERM to every runner. */
    method SignalAll(order: seq<string>)
      requires forall n | n in order :: n in runners
      modifies os
      ensures os.children == old(os.children)
      ensures os.log == old(os.log) + TermLog(PidsOf(runners, order))
    {
      ghost var pids, start := PidsOf(runners, order), os.log;
      PidsIndex(runners, order);
      for k := 0 to |order|
        invariant os.children == old(os.children)
        invariant os.log + TermLog(pids[k..]) == start + TermLog(pids)
      {
        Assoc(os.log, [Signalled(pids[k], Term)], TermLog(pids[k + 1..]));
        assert pids[k..][1..] == pids[k + 1..];
        os.KillProcess(runners[order[k]].pid, Term);
      }
      assert os.log + [] == os.log;
    }

    /** Second pass: each runner in turn, with the timeout. */
    method ReapAll(order: seq<string>, alive: (int, nat) -> bool)
      requires forall n | n in order :: n in runners
      modifies os
      ensures os.children == old(os.children) - Elements(PidsOf(runners, order))
      ensures os.log == old(os.log) + StopLogs(PidsOf(runners, order), alive)
    {
      ghost var pids, start := PidsOf(runners, order), os.log;
      PidsIndex(runners, order);
      for k := 0 to |order|
        invariant os.children == old(os.children) - Elements(pids[..k])
        invariant os.log + StopLogs(pids[k..], alive) == start + StopLogs(pids, alive)
      {
        var pid := runners[order[k]].pid;
        assert pids[k..][1..] == pids[k + 1..] && pids[..k + 1] == pids[..k] + [pid];
        Assoc(os.log, StopLog(pid, About(alive, pid)), StopLogs(pids[k + 1..], alive));
        StopWithTimeout(os, pid, About(alive, pid));
      }
      assert pids[..|order|] == pids && os.log + [] == os.log;
    }

    method StopAll(order: seq<string>, alive: (int, nat) -> bool)
      requires Enumerates(order, runners)
      modifies this, os
      ensures State() == Registry.StopAll(old(State()), order, alive)
    {
      SignalAll(order);
      ReapAll(order, alive);
      runners := map[];
    }
  }
}
