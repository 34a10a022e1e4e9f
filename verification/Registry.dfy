/** The registry of runners as values: what each public method of `RunnerManager` does to the map and
    to the children. Every method holds the manager's mutex, so each is one step; what the operating
    system and the runners answer during it are oracles. */
module Registry {
  import opened Prelude
  import opened Processes

  // ---- the registry ----

  datatype Info = Info(name: string, binary: string, modelName: string, port: int, pid: int, modelPath: string)

  datatype World = World(runners: map<string, Info>, children: set<int>, log: seq<Event>)

  /** The manager's configuration: the default binary and the per-model and per-type overrides. */
  datatype Config = Config(binary: string, byModel: map<string, string>, byType: map<string, string>)

  function RunnerForModel(c: Config, model: string): string
  {
    if model in c.byModel then c.byModel[model] else c.binary
  }

  function EffectiveBinary(c: Config, binary: string, kind: string, stem: string): string
  {
    var b := if binary == "" then RunnerForModel(c, stem) else binary;
    if b == "" && kind != "" then (if kind in c.byType then c.byType[kind] else "") else b
  }

  /** What the environment answers while a runner is started: the model file's path, stem and
      existence, the port found, the pid (negative on failure), and the answer to each health probe. */
  datatype StartEnv = StartEnv(path: string, stem: string, found: bool, port: int, pid: int, healthy: nat -> bool)

  predicate HealthyFrom(healthy: nat -> bool, i: nat)
    requires i <= PROBES
    decreases PROBES - i
  {
    i < PROBES && (healthy(i) || HealthyFrom(healthy, i + 1))
  }

  function Spawn(w: World, name: string, binary: string, env: StartEnv): (World, Option<Info>)
  {
    if env.pid < 0 then (w, None) else
      var born := w.(children := w.children + {env.pid}, log := w.log + [Spawned(env.pid)]);
      if HealthyFrom(env.healthy, 0) then
        var info := Info(name, binary, env.stem, env.port, env.pid, env.path);
        (born.(runners := w.runners[name := info]), Some(info))
      else
        (born.(children := born.children - {env.pid},
               log := born.log + [Signalled(env.pid, Term), Reaped(env.pid)]), None)
  }

  function GetOrStart(c: Config, w: World, model: string, env: StartEnv): (World, Option<Info>)
  {
    if model in w.runners then (w, Some(w.runners[model]))
    else if !env.found || env.port <= 0 then (w, None)
    else Spawn(w, model, RunnerForModel(c, model), env)
  }

  function Start(c: Config, w: World, model: string, env: StartEnv): (World, Outcome<bool>)
  {
    var (w', info) := GetOrStart(c, w, model, env);
    (w', if info.Some? then Success(true) else Failure(ModelError, "Failed to start runner for " + model))
  }

  function StartRunner(c: Config, w: World, name: string, binary: string, kind: string, env: StartEnv)
    : (World, Outcome<bool>)
  {
    if name in w.runners then (w, Failure(AlreadyExists, "Runner already running: " + name))
    else if !env.found then (w, Failure(NotFound, "Model file not found: " + env.path))
    else if env.port <= 0 then (w, Failure(ModelError, "Failed to find free port"))
    else
      var (w', info) := Spawn(w, name, EffectiveBinary(c, binary, kind, env.stem), env);
      (w', if info.Some? then Success(true) else Failure(ModelError, "Failed to start runner: " + name))
  }

  function Stop(w: World, name: string, alive: nat -> bool): World
  {
    if name !in w.runners then w else
      var pid := w.runners[name].pid;
      World(w.runners - {name}, w.children - {pid}, w.log + StopLog(pid, alive))
  }

  /** Pids of the entries, in the order the registry is walked. */
  function PidsOf(runners: map<string, Info>, order: seq<string>): seq<int>
    requires forall n | n in order :: n in runners
  {
    if order == [] then [] else [runners[order[0]].pid] + PidsOf(runners, order[1..])
  }

  function TermLog(pids: seq<int>): seq<Event>
  {
    if pids == [] then [] else [Signalled(pids[0], Term)] + TermLog(pids[1..])
  }

  /** The liveness answers about one process. */
  function About(alive: (int, nat) -> bool, pid: int): nat -> bool
  {
    (i: nat) => alive(pid, i)
  }

  function StopLogs(pids: seq<int>, alive: (int, nat) -> bool): seq<Event>
  {
    if pids == [] then [] else StopLog(pids[0], About(alive, pids[0])) + StopLogs(pids[1..], alive)
  }

  function Elements(pids: seq<int>): set<int>
  {
    set p | p in pids
  }

  /** `order` is how the map is iterated: each name once. */
  ghost predicate Enumerates(order: seq<string>, runners: map<string, Info>)
  {
    && (forall n :: n in order <==> n in runners)
    && (forall i, j | 0 <= i < j < |order| :: order[i] != order[j])
  }

  function StopAll(w: World, order: seq<string>, alive: (int, nat) -> bool): World
    requires forall n | n in order :: n in w.runners
  {
    var pids := PidsOf(w.runners, order);
    World(map[], w.children - Elements(pids), w.log + TermLog(pids) + StopLogs(pids, alive))
  }

  lemma {:induction false} PidsIndex(runners: map<string, Info>, order: seq<string>)
    requires forall n | n in order :: n in runners
    ensures |PidsOf(runners, order)| == |order|
    ensures forall i | 0 <= i < |order| :: order[i] in runners && PidsOf(runners, order)[i] == runners[order[i]].pid
    decreases order
  {
    if order != [] {
      PidsIndex(runners, order[1..]);
      assert forall i | 1 <= i < |order| :: order[i] == order[1..][i - 1];
    }
  }

  // ---- runs of the manager ----

  datatype Op =
    | DoStart(model: string, env: StartEnv)
    | DoStartRunner(name: string, binary: string, kind: string, env: StartEnv)
    | DoProxy(model: string, env: StartEnv)
    | DoStop(name: string, alive: nat -> bool)
    | DoStopAll(order: seq<string>, aliveAll: (int, nat) -> bool)

  /** What is assumed of the environment: a new process does not get the pid of an unreaped child,
      and `stop_all` walks the registry it finds. */
  ghost predicate Possible(w: World, op: Op)
  {
    match op
    case DoStart(_, env) => env.pid !in w.children
    case DoStartRunner(_, _, _, env) => env.pid !in w.children
    case DoProxy(_, env) => env.pid !in w.children
    case DoStop(_, _) => true
    case DoStopAll(order, _) => Enumerates(order, w.runners)
  }

  ghost function Apply(c: Config, w: World, op: Op): World
    requires Possible(w, op)
  {
    match op
    case DoStart(model, env) => Start(c, w, model, env).0
    case DoStartRunner(name, binary, kind, env) => StartRunner(c, w, name, binary, kind, env).0
    case DoProxy(model, env) => GetOrStart(c, w, model, env).0
    case DoStop(name, alive) => Stop(w, name, alive)
    case DoStopAll(order, alive) => StopAll(w, order, alive)
  }

  ghost predicate PossibleAll(c: Config, w: World, ops: seq<Op>)
    decreases ops
  {
    ops == [] || (Possible(w, ops[0]) && PossibleAll(c, Apply(c, w, ops[0]), ops[1..]))
  }

  ghost function ApplyAll(c: Config, w: World, ops: seq<Op>): World
    requires PossibleAll(c, w, ops)
    decreases ops
  {
    if ops == [] then w else ApplyAll(c, Apply(c, w, ops[0]), ops[1..])
  }

  const NOTHING := World(map[], {}, [])

  // ---- no leaked children ----

  ghost predicate Distinct(runners: map<string, Info>)
  {
    forall a, b | a in runners && b in runners && a != b :: runners[a].pid != runners[b].pid
  }

  ghost predicate WorldInv(w: World)
  {
    && (forall n | n in w.runners :: w.runners[n].name == n && w.runners[n].pid in w.children)
    && (forall p | p in w.children :: exists n :: n in w.runners && w.runners[n].pid == p)
    && Distinct(w.runners)
    && Sound(w.log) && w.children == Outstanding(w.log)
  }

  lemma {:induction false} LogTerms(log: seq<Event>, pids: seq<int>)
    requires Sound(log)
    ensures Sound(log + TermLog(pids)) && Outstanding(log + TermLog(pids)) == Outstanding(log)
    decreases pids
  {
    if pids == [] {
      assert log + [] == log;
    } else {
      var e := Signalled(pids[0], Term);
      LogOne(log, e);
      LogTerms(log + [e], pids[1..]);
      Assoc(log, [e], TermLog(pids[1..]));
    }
  }

  lemma {:induction false} LogStops(log: seq<Event>, pids: seq<int>, alive: (int, nat) -> bool)
    requires Sound(log) && (forall p | p in pids :: p in Outstanding(log))
    requires forall i, j | 0 <= i < j < |pids| :: pids[i] != pids[j]
    ensures Sound(log + StopLogs(pids, alive))
    ensures Outstanding(log + StopLogs(pids, alive)) == Outstanding(log) - Elements(pids)
    decreases pids
  {
    if pids == [] {
      assert log + [] == log;
    } else {
      var first := StopLog(pids[0], About(alive, pids[0]));
      LogStop(log, pids[0], About(alive, pids[0]));
      forall p | p in pids[1..] ensures p in Outstanding(log + first) {
        var j :| 0 <= j < |pids[1..]| && pids[1..][j] == p;
        assert pids[j + 1] == p && pids[0] != p;
      }
      LogStops(log + first, pids[1..], alive);
      Assoc(log, first, StopLogs(pids[1..], alive));
      ElementsSplit(pids);
    }
  }

  lemma ElementsSplit(pids: seq<int>)
    requires pids != []
    ensures Elements(pids) == {pids[0]} + Elements(pids[1..])
  {}

  lemma BirthKeepsInv(w: World, name: string, info: Info)
    requires WorldInv(w) && name !in w.runners && info.name == name && info.pid !in w.children
    ensures WorldInv(World(w.runners[name := info], w.children + {info.pid}, w.log + [Spawned(info.pid)]))
  {
    var runners := w.runners[name := info];
    LogOne(w.log, Spawned(info.pid));
    forall p | p in w.children + {info.pid} ensures exists n :: n in runners && runners[n].pid == p {
      if p == info.pid {
        assert runners[name].pid == p;
      } else {
        var n :| n in w.runners && w.runners[n].pid == p;
        assert n in runners && runners[n].pid == p;
      }
    }
  }

  lemma LogFailedBirth(log: seq<Event>, pid: int)
    requires Sound(log) && pid !in Outstanding(log)
    ensures var log' := log + [Spawned(pid)] + [Signalled(pid, Term), Reaped(pid)];
            Sound(log') && Outstanding(log') == Outstanding(log)
  {
    var born := log + [Spawned(pid)];
    LogOne(log, Spawned(pid));
    LogOne(born, Signalled(pid, Term));
    LogOne(born + [Signalled(pid, Term)], Reaped(pid));
    assert born + [Signalled(pid, Term)] + [Reaped(pid)] == born + [Signalled(pid, Term), Reaped(pid)];
  }

  lemma SpawnKeepsInv(w: World, name: string, binary: string, env: StartEnv)
    requires WorldInv(w) && name !in w.runners && env.pid !in w.children
    ensures WorldInv(Spawn(w, name, binary, env).0)
  {
    if env.pid >= 0 {
      if HealthyFrom(env.healthy, 0) {
        BirthKeepsInv(w, name, Info(name, binary, env.stem, env.port, env.pid, env.path));
      } else {
        LogFailedBirth(w.log, env.pid);
        assert w.children + {env.pid} - {env.pid} == w.children;
      }
    }
  }

  lemma StopKeepsInv(w: World, name: string, alive: nat -> bool)
    requires WorldInv(w)
    ensures WorldInv(Stop(w, name, alive))
  {
    if name in w.runners {
      var pid, w' := w.runners[name].pid, Stop(w, name, alive);
      LogStop(w.log, pid, alive);
      forall p | p in w'.children ensures exists n :: n in w'.runners && w'.runners[n].pid == p {
        var n :| n in w.runners && w.runners[n].pid == p;
        assert n in w'.runners && w'.runners[n].pid == p;
      }
    }
  }

  lemma StopAllKeepsInv(w: World, order: seq<string>, alive: (int, nat) -> bool)
    requires WorldInv(w) && Enumerates(order, w.runners)
    ensures WorldInv(StopAll(w, order, alive)) && StopAll(w, order, alive).children == {}
  {
    var pids := PidsOf(w.runners, order);
    PidsIndex(w.runners, order);
    ChildrenAreRegistered(w, order);
    LogTerms(w.log, pids);
    LogStops(w.log + TermLog(pids), pids, alive);
  }

  lemma ApplyKeepsInv(c: Config, w: World, op: Op)
    requires WorldInv(w) && Possible(w, op)
    ensures WorldInv(Apply(c, w, op))
  {
    match op
    case DoStart(model, env) =>
      if model !in w.runners {
        SpawnKeepsInv(w, model, RunnerForModel(c, model), env);
      }
    case DoStartRunner(name, binary, kind, env) =>
      if name !in w.runners {
        SpawnKeepsInv(w, name, EffectiveBinary(c, binary, kind, env.stem), env);
      }
    case DoProxy(model, env) =>
      if model !in w.runners {
        SpawnKeepsInv(w, model, RunnerForModel(c, model), env);
      }
    case DoStop(name, alive) => StopKeepsInv(w, name, alive);
    case DoStopAll(order, alive) => StopAllKeepsInv(w, order, alive);
  }

  /** Over every run: the unreaped children are exactly the registered pids, each entry is under its
      own name, no two entries share a pid, and every wait was for a child of the server. */
  lemma {:induction false} NoLeakedChildren(c: Config, w: World, ops: seq<Op>)
    requires WorldInv(w) && PossibleAll(c, w, ops)
    ensures WorldInv(ApplyAll(c, w, ops))
    decreases ops
  {
    if ops != [] {
      ApplyKeepsInv(c, w, ops[0]);
      NoLeakedChildren(c, Apply(c, w, ops[0]), ops[1..]);
    }
  }

  /** `stop_all`, after any run, leaves no child and no entry: every pid registered was signalled
      before any was waited for, and reaped, whether or not it heeded SIGTERM. */
  lemma StopAllReapsAll(c: Config, ops: seq<Op>, order: seq<string>, alive: (int, nat) -> bool)
    requires PossibleAll(c, NOTHING, ops) && Enumerates(order, ApplyAll(c, NOTHING, ops).runners)
    ensures var w := ApplyAll(c, NOTHING, ops);
            var w' := StopAll(w, order, alive);
            && w'.runners == map[] && w'.children == {} && Outstanding(w'.log) == {}
            && w.children == Elements(PidsOf(w.runners, order))
            && w'.log == w.log + TermLog(PidsOf(w.runners, order)) + StopLogs(PidsOf(w.runners, order), alive)
  {
    NoLeakedChildren(c, NOTHING, ops);
    var w := ApplyAll(c, NOTHING, ops);
    StopAllKeepsInv(w, order, alive);
    ChildrenAreRegistered(w, order);
  }

  lemma ChildrenAreRegistered(w: World, order: seq<string>)
    requires WorldInv(w) && Enumerates(order, w.runners)
    ensures w.children == Elements(PidsOf(w.runners, order))
  {
    var pids := PidsOf(w.runners, order);
    PidsIndex(w.runners, order);
    forall p | p in w.children ensures p in Elements(pids) {
      var n :| n in w.runners && w.runners[n].pid == p;
      var i :| 0 <= i < |order| && order[i] == n;
      assert pids[i] == p;
    }
    forall p | p in Elements(pids) ensures p in w.children {
      var i :| 0 <= i < |order| && pids[i] == p;
    }
  }

  // ---- no process is waited for unannounced ----

  lemma {:induction false} WarnTerms(log: seq<Event>, pids: seq<int>)
    requires Announced(log)
    ensures Announced(log + TermLog(pids))
    decreases pids
  {
    if pids == [] {
      assert log + [] == log;
    } else {
      var e := Signalled(pids[0], Term);
      WarnOne(log, e);
      WarnTerms(log + [e], pids[1..]);
      Assoc(log, [e], TermLog(pids[1..]));
    }
  }

  lemma {:induction false} WarnStops(log: seq<Event>, pids: seq<int>, alive: (int, nat) -> bool)
    requires Announced(log)
    ensures Announced(log + StopLogs(pids, alive))
    decreases pids
  {
    if pids == [] {
      assert log + [] == log;
    } else {
      var first := StopLog(pids[0], About(alive, pids[0]));
      WarnStop(log, pids[0], About(alive, pids[0]));
      WarnStops(log + first, pids[1..], alive);
      Assoc(log, first, StopLogs(pids[1..], alive));
    }
  }

  lemma WarnSpawn(w: World, name: string, binary: string, env: StartEnv)
    requires Announced(w.log)
    ensures Announced(Spawn(w, name, binary, env).0.log)
  {
    var born, term := w.log + [Spawned(env.pid)], Signalled(env.pid, Term);
    WarnOne(w.log, Spawned(env.pid));
    WarnOne(born, term);
    WarnOne(born + [term], Reaped(env.pid));
    assert born + [term] + [Reaped(env.pid)] == born + [term, Reaped(env.pid)];
  }

  lemma ApplyAnnounces(c: Config, w: World, op: Op)
    requires Announced(w.log) && Possible(w, op)
    ensures Announced(Apply(c, w, op).log)
  {
    match op
    case DoStart(model, env) => WarnSpawn(w, model, RunnerForModel(c, model), env);
    case DoStartRunner(name, binary, kind, env) => WarnSpawn(w, name, EffectiveBinary(c, binary, kind, env.stem), env);
    case DoProxy(model, env) => WarnSpawn(w, model, RunnerForModel(c, model), env);
    case DoStop(name, alive) =>
      if name in w.runners {
        WarnStop(w.log, w.runners[name].pid, alive);
      }
    case DoStopAll(order, alive) =>
      var pids := PidsOf(w.runners, order);
      WarnTerms(w.log, pids);
      WarnStops(w.log + TermLog(pids), pids, alive);
  }

  lemma {:induction false} RunsAnnounce(c: Config, w: World, ops: seq<Op>)
    requires Announced(w.log) && PossibleAll(c, w, ops)
    ensures Announced(ApplyAll(c, w, ops).log)
    decreases ops
  {
    if ops != [] {
      ApplyAnnounces(c, w, ops[0]);
      RunsAnnounce(c, Apply(c, w, ops[0]), ops[1..]);
    }
  }

  /** Over every run: the server never waits for a process it has not told to end. Before each wait comes
      a SIGTERM to that pid, and before that its spawn, with no other spawn or wait of it in between. */
  lemma EveryWaitIsAnnounced(c: Config, ops: seq<Op>, j: nat)
    requires PossibleAll(c, NOTHING, ops)
    requires j < |ApplyAll(c, NOTHING, ops).log| && ApplyAll(c, NOTHING, ops).log[j].Reaped?
    ensures var log := ApplyAll(c, NOTHING, ops).log;
            exists i, k :: 0 <= i < k < j && log[i] == Spawned(log[j].pid) && log[k] == Signalled(log[j].pid, Term)
                          && forall n | i < n < j :: !Marks(log[n], log[j].pid)
  {
    NoLeakedChildren(c, NOTHING, ops);
    RunsAnnounce(c, NOTHING, ops);
    WaitsAreAnnounced(ApplyAll(c, NOTHING, ops).log, j);
  }

  /** `stop` of a registered runner: SIGTERM to its process first; SIGKILL exactly when 50 polls all find
      it alive; one wait for it, last; and its entry is gone. For any other name it does nothing. */
  lemma StopReports(w: World, name: string, alive: nat -> bool)
    ensures name !in w.runners ==> Stop(w, name, alive) == w
    ensures name in w.runners ==>
              var w', pid := Stop(w, name, alive), w.runners[name].pid;
              && w.log < w'.log && w'.runners == w.runners - {name} && w'.children == w.children - {pid}
              && var added := w'.log[|w.log|..];
                 && added[0] == Signalled(pid, Term)
                 && (Signalled(pid, Kill) in added <==> forall j | 0 <= j < 50 :: alive(j))
                 && (forall n | 0 <= n < |added| :: added[n] == Reaped(pid) <==> n == |added| - 1)
  {
    if name in w.runners {
      var pid := w.runners[name].pid;
      StopProtocol(pid, alive);
      assert (w.log + StopLog(pid, alive))[|w.log|..] == StopLog(pid, alive);
    }
  }

  /** The first pass of `stop_all`, pid by pid. */
  lemma {:induction false} TermLogIndex(pids: seq<int>)
    ensures |TermLog(pids)| == |pids| && forall i | 0 <= i < |pids| :: TermLog(pids)[i] == Signalled(pids[i], Term)
    ensures forall p :: Signalled(p, Kill) !in TermLog(pids)
    decreases pids
  {
    if pids != [] {
      TermLogIndex(pids[1..]);
    }
  }

  lemma {:induction false} StopLogsKill(pids: seq<int>, alive: (int, nat) -> bool, p: int)
    ensures Signalled(p, Kill) in StopLogs(pids, alive) <==> p in pids && forall j: nat | j < 50 :: alive(p, j)
    decreases pids
  {
    if pids != [] {
      var own := About(alive, pids[0]);
      StopLogsKill(pids[1..], alive, p);
      StopProtocol(pids[0], own);
      assert forall j: nat :: own(j) == alive(pids[0], j);
      assert p in pids <==> p == pids[0] || p in pids[1..];
    }
  }

  lemma PassesOf(log: seq<Event>, pids: seq<int>, alive: (int, nat) -> bool, p: int)
    ensures var log' := log + TermLog(pids) + StopLogs(pids, alive);
            && |log'| >= |log| + |pids| && log <= log'
            && (forall i | 0 <= i < |pids| :: log'[|log| + i] == Signalled(pids[i], Term))
            && (Signalled(p, Kill) in log'[|log|..] <==> p in pids && forall j: nat | j < 50 :: alive(p, j))
  {
    TermLogIndex(pids);
    StopLogsKill(pids, alive, p);
    Passes(log, TermLog(pids), StopLogs(pids, alive), Signalled(p, Kill));
  }

  /** What `stop_all` does to the processes: first one SIGTERM to each registered one, in turn; then, to
      exactly those of them that all of their own 50 polls find alive, SIGKILL. */
  lemma StopAllReports(w: World, order: seq<string>, alive: (int, nat) -> bool, p: int)
    requires forall n | n in order :: n in w.runners
    ensures var log, pids := StopAll(w, order, alive).log, PidsOf(w.runners, order);
            && |log| >= |w.log| + |pids| && w.log <= log && |pids| == |order|
            && (forall i | 0 <= i < |pids| :: log[|w.log| + i] == Signalled(pids[i], Term))
            && (forall i | 0 <= i < |order| :: pids[i] == w.runners[order[i]].pid)
            && (Signalled(p, Kill) in log[|w.log|..] <==> p in pids && forall j: nat | j < 50 :: alive(p, j))
  {
    PidsIndex(w.runners, order);
    PassesOf(w.log, PidsOf(w.runners, order), alive, p);
  }

  lemma Passes(log: seq<Event>, terms: seq<Event>, stops: seq<Event>, e: Event)
    requires e !in terms
    ensures log <= log + terms + stops && (e in (log + terms + stops)[|log|..] <==> e in stops)
    ensures forall i | 0 <= i < |terms| :: (log + terms + stops)[|log| + i] == terms[i]
  {
    assert (log + terms + stops)[|log|..] == terms + stops;
  }

  // ---- the registry as a partial map ----

  /** The abstract operation each public method is on the map of names to pids. */
  datatype MapOp = Insert(name: string, pid: int) | Remove(name: string) | Clear | Keep

  function Meaning(op: Op): MapOp
  {
    match op
    case DoStart(model, env) => Started(model, env)
    case DoStartRunner(name, _, _, env) => Started(name, env)
    case DoProxy(model, env) => Started(model, env)
    case DoStop(name, _) => Remove(name)
    case DoStopAll(_, _) => Clear
  }

  /** A start inserts exactly when the file exists, a port is free, the process starts and one of
      the probes finds it healthy. */
  function Started(name: string, env: StartEnv): MapOp
  {
    if env.found && env.port > 0 && env.pid >= 0 && HealthyFrom(env.healthy, 0) then Insert(name, env.pid) else Keep
  }

  function MapStep(m: map<string, int>, op: MapOp): map<string, int>
  {
    match op
    case Insert(name, pid) => if name in m then m else m[name := pid]
    case Remove(name) => m - {name}
    case Clear => map[]
    case Keep => m
  }

  function Pids(runners: map<string, Info>): map<string, int>
  {
    map n | n in runners :: runners[n].pid
  }

  /** Refinement: insert if absent, remove, clear. An entry is never overwritten. */
  lemma RegistryRefinement(c: Config, w: World, op: Op)
    requires Possible(w, op)
    ensures Pids(Apply(c, w, op).runners) == MapStep(Pids(w.runners), Meaning(op))
    ensures forall n | n in w.runners && n in Apply(c, w, op).runners :: Apply(c, w, op).runners[n] == w.runners[n]
  {
    match op
    case DoStart(model, env) =>
      if model !in w.runners {
        StartRefinement(w, model, RunnerForModel(c, model), env);
      }
    case DoStartRunner(name, binary, kind, env) =>
      if name !in w.runners {
        StartRefinement(w, name, EffectiveBinary(c, binary, kind, env.stem), env);
      }
    case DoProxy(model, env) =>
      if model !in w.runners {
        StartRefinement(w, model, RunnerForModel(c, model), env);
      }
    case DoStop(name, alive) =>
      assert Pids(w.runners - {name}) == Pids(w.runners) - {name};
      assert name !in w.runners ==> Pids(w.runners) - {name} == Pids(w.runners);
    case DoStopAll(_, _) =>
  }

  /** What a run of operations is on the map: the fold of what each is. */
  function MapRun(m: map<string, int>, ops: seq<Op>): map<string, int>
    decreases ops
  {
    if ops == [] then m else MapRun(MapStep(m, Meaning(ops[0])), ops[1..])
  }

  /** Refinement over whole runs: the registry behaves as the abstract map. */
  lemma {:induction false} RunRefinement(c: Config, w: World, ops: seq<Op>)
    requires PossibleAll(c, w, ops)
    ensures Pids(ApplyAll(c, w, ops).runners) == MapRun(Pids(w.runners), ops)
    decreases ops
  {
    if ops != [] {
      RegistryRefinement(c, w, ops[0]);
      RunRefinement(c, Apply(c, w, ops[0]), ops[1..]);
    }
  }

  lemma StartRefinement(w: World, name: string, binary: string, env: StartEnv)
    requires name !in w.runners
    ensures Pids(Spawn(w, name, binary, env).0.runners) ==
            if env.pid >= 0 && HealthyFrom(env.healthy, 0) then Pids(w.runners)[name := env.pid] else Pids(w.runners)
  {}

  lemma {:induction false} HealthyMeansSomeProbe(healthy: nat -> bool, i: nat)
    requires i <= PROBES
    ensures HealthyFrom(healthy, i) <==> exists j :: i <= j < 100 && healthy(j)
    decreases PROBES - i
  {
    if i < PROBES {
      HealthyMeansSomeProbe(healthy, i + 1);
    }
  }

  predicate Stops(op: Op, name: string)
  {
    op.DoStopAll? || (op.DoStop? && op.name == name)
  }

  /** However often it is started or used again, a runner keeps its process until it is stopped. */
  lemma {:induction false} KeepsItsProcess(c: Config, w: World, ops: seq<Op>, name: string)
    requires PossibleAll(c, w, ops) && name in w.runners
    requires forall op | op in ops :: !Stops(op, name)
    ensures name in ApplyAll(c, w, ops).runners && ApplyAll(c, w, ops).runners[name] == w.runners[name]
    decreases ops
  {
    if ops != [] {
      assert !Stops(ops[0], name);
      RegistryRefinement(c, w, ops[0]);
      KeepsItsProcess(c, Apply(c, w, ops[0]), ops[1..], name);
    }
  }

  /** A start that fails leaves the registry and the children as they were. */
  lemma FailedStartLeavesNoTrace(c: Config, w: World, name: string, binary: string, kind: string, env: StartEnv)
    requires env.pid !in w.children
    ensures Start(c, w, name, env).1.Failure? ==>
              Start(c, w, name, env).0.runners == w.runners && Start(c, w, name, env).0.children == w.children
    ensures StartRunner(c, w, name, binary, kind, env).1.Failure? ==>
              StartRunner(c, w, name, binary, kind, env).0.runners == w.runners
              && StartRunner(c, w, name, binary, kind, env).0.children == w.children
  {}

  /** What a proxy call and `start` get: the entry already there, untouched, for a name that is
      registered; for another name a new entry, run by the binary chosen for that model, or nothing
      changed. `start` succeeds exactly when the name is registered afterwards. */
  lemma StartReports(c: Config, w: World, model: string, env: StartEnv)
    ensures var (w', info) := GetOrStart(c, w, model, env);
            && (model in w.runners ==> w' == w && info == Some(w.runners[model]))
            && (info.Some? <==> model in w.runners || Started(model, env).Insert?)
            && (info.Some? <==> model in w'.runners)
            && (info.Some? ==> info.value == w'.runners[model])
            && (info.Some? && model !in w.runners ==>
                  Recorded(w', model, if model in c.byModel then c.byModel[model] else c.binary, env)
                  && w'.children == w.children + {env.pid} && w'.log == w.log + [Spawned(env.pid)])
            && (info.None? ==> w'.runners == w.runners)
    ensures Start(c, w, model, env).0 == GetOrStart(c, w, model, env).0
    ensures Start(c, w, model, env).1 ==
            if model in Start(c, w, model, env).0.runners then Success(true)
            else Failure(ModelError, "Failed to start runner for " + model)
  {}

  /** What `start_runner` reports, exactly when, and what each outcome leaves: only a success registers
      the name, with the fields of its entry and a new child; only a runner that came up but was never
      healthy costs a SIGTERM and a wait; every other refusal does nothing at all. */
  lemma StartRunnerReports(c: Config, w: World, name: string, binary: string, kind: string, env: StartEnv)
    ensures var (w', r) := StartRunner(c, w, name, binary, kind, env);
            var unhealthy := env.pid >= 0 && !HealthyFrom(env.healthy, 0);
            && (r == Failure(AlreadyExists, "Runner already running: " + name) <==> name in w.runners)
            && (r == Failure(NotFound, "Model file not found: " + env.path) <==> name !in w.runners && !env.found)
            && (r == Failure(ModelError, "Failed to find free port") <==>
                  name !in w.runners && env.found && env.port <= 0)
            && (r == Failure(ModelError, "Failed to start runner: " + name) <==>
                  name !in w.runners && env.found && env.port > 0 && (env.pid < 0 || unhealthy))
            && (r.Success? <==> name !in w.runners && Started(name, env).Insert?)
            && (r.Success? ==> Recorded(w', name, EffectiveBinary(c, binary, kind, env.stem), env)
                               && w'.children == w.children + {env.pid})
            && (r.Failure? ==> w'.runners == w.runners)
            && (r.Failure? && env.pid !in w.children ==> w'.children == w.children)
            && (r.Failure? && w'.log != w.log ==>
                  unhealthy && w'.log == w.log + [Spawned(env.pid), Signalled(env.pid, Term), Reaped(env.pid)])
  {
    var stopped := [Signalled(env.pid, Term), Reaped(env.pid)];
    assert w.log + [Spawned(env.pid)] + stopped ==
           w.log + [Spawned(env.pid), Signalled(env.pid, Term), Reaped(env.pid)];
    assert "Failed to find free port"[10] == 'f' && ("Failed to start runner: " + name)[10] == 's';
  }

  predicate Recorded(w: World, name: string, binary: string, env: StartEnv)
  {
    name in w.runners && w.runners[name] == Info(name, binary, env.stem, env.port, env.pid, env.path)
  }

  /** The first of `candidates` that is not empty, or the empty string. */
  function FirstNonEmpty(candidates: seq<string>): (r: string)
    ensures r == "" <==> forall k | 0 <= k < |candidates| :: candidates[k] == ""
  {
    if candidates == [] then "" else if candidates[0] != "" then candidates[0] else FirstNonEmpty(candidates[1..])
  }

  function Lookup(m: map<string, string>, key: string): string
  {
    if key in m then m[key] else ""
  }

  /** The explicit binary, then one chosen for the model, then one for the type. For the model that is its
      override if there is one, even an empty one: an empty override hides the default binary. */
  lemma BinaryPrecedence(c: Config, binary: string, kind: string, stem: string)
    ensures EffectiveBinary(c, binary, kind, stem) ==
            FirstNonEmpty([binary, if stem in c.byModel then c.byModel[stem] else c.binary,
                           if kind == "" then "" else Lookup(c.byType, kind)])
    ensures Lookup(c.byModel, stem) == "" && stem in c.byModel ==>
              EffectiveBinary(c, "", kind, stem) == EffectiveBinary(c.(binary := ""), "", kind, stem)
  {
    var model, type_ := RunnerForModel(c, stem), if kind == "" then "" else Lookup(c.byType, kind);
    assert [type_][1..] == [] && FirstNonEmpty([type_]) == type_;
    assert [model, type_][1..] == [type_] && FirstNonEmpty([model, type_]) == if model != "" then model else type_;
    assert [binary, model, type_][1..] == [model, type_];
  }
}
