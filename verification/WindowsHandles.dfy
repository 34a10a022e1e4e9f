/** The Windows table from pids to process handles, alone and under `RunnerManager`. */
module WindowsHandles {
  import opened Prelude
  import opened Processes
  import opened Registry

  /** A handle is named by how many were opened before it; `closed` lists those closed, in order. */
  datatype Table = Table(handles: map<int, nat>, count: nat, closed: seq<nat>)

  const NO_HANDLES := Table(map[], 0, [])

  /** `spawn_process`, once the process exists. */
  function Opened(t: Table, pid: int): Table
  {
    t.(handles := t.handles[pid := t.count], count := t.count + 1)
  }

  /** `wait_process`; -1 for a pid that is not in the table, and otherwise the process's exit code. */
  function Waited(t: Table, pid: int, exitCode: int): (Table, int)
  {
    if pid !in t.handles then (t, -1)
    else (Table(t.handles - {pid}, t.count, t.closed + [t.handles[pid]]), exitCode)
  }

  /** A wait for a process in the table gives its exit code and closes its handle, and no other; a wait
      for any other pid, or a second one, gives -1 and closes nothing. */
  lemma WaitReports(t: Table, pid: int, exitCode: int)
    ensures pid in t.handles ==>
              Waited(t, pid, exitCode).1 == exitCode
              && Waited(t, pid, exitCode).0.closed == t.closed + [t.handles[pid]]
              && (forall p | p in t.handles && p != pid ::
                    p in Waited(t, pid, exitCode).0.handles && Waited(t, pid, exitCode).0.handles[p] == t.handles[p])
    ensures pid !in t.handles ==> Waited(t, pid, exitCode) == (t, -1)
    ensures Waited(Waited(t, pid, exitCode).0, pid, exitCode) == (Waited(t, pid, exitCode).0, -1)
    ensures pid in Opened(t, pid).handles && Waited(Opened(t, pid), pid, exitCode).0.closed == t.closed + [t.count]
  {}

  class HandleTable {
    var handles: map<int, nat>
    var count: nat
    var closed: seq<nat>

    constructor ()
      ensures Value() == NO_HANDLES
    {
      handles, count, closed := map[], 0, [];
    }

    function Value(): Table
      reads this
    {
      Table(handles, count, closed)
    }

    /** `pid` is the new process's, or negative if `CreateProcess` failed. */
    method SpawnProcess(pid: int) returns (r: int)
      modifies this
      ensures r == if pid < 0 then -1 else pid
      ensures Value() == if pid < 0 then old(Value()) else Opened(old(Value()), pid)
    {
      if pid < 0 {
        return -1;
      }
      handles, count := handles[pid := count], count + 1;
      return pid;
    }

    method WaitProcess(pid: int, exitCode: int) returns (r: int)
      modifies this
      ensures (Value(), r) == Waited(old(Value()), pid, exitCode)
    {
      if pid !in handles {
        return -1;
      }
      var h := handles[pid];
      handles := handles - {pid};
      closed := closed + [h];
      return exitCode;
    }
  }

  // ---- runs ----

  /** Spawns and waits move the table; signals and polls open and close a handle of their own. */
  function Handled(t: Table, e: Event): Table
  {
    match e
    case Spawned(pid) => Opened(t, pid)
    case Reaped(pid) => Waited(t, pid, 0).0
    case _ => t
  }

  function Replay(log: seq<Event>): Table
  {
    if log == [] then NO_HANDLES else Handled(Replay(log[..|log| - 1]), log[|log| - 1])
  }

  /** Every handle opened is either in the table, once, or closed, once. */
  ghost predicate TableInv(t: Table)
  {
    && (forall p | p in t.handles :: t.handles[p] < t.count && t.handles[p] !in t.closed)
    && (forall p, q | p in t.handles && q in t.handles && p != q :: t.handles[p] != t.handles[q])
    && (forall i | 0 <= i < |t.closed| :: t.closed[i] < t.count)
    && (forall i, j | 0 <= i < j < |t.closed| :: t.closed[i] != t.closed[j])
    && (forall h: nat | h < t.count :: h in t.closed || exists p :: p in t.handles && t.handles[p] == h)
  }

  lemma OpenKeeps(t: Table, pid: int)
    requires TableInv(t) && pid !in t.handles
    ensures TableInv(Opened(t, pid))
  {
    var t' := Opened(t, pid);
    forall h: nat | h < t'.count ensures h in t'.closed || exists p :: p in t'.handles && t'.handles[p] == h {
      if h == t.count {
        assert t'.handles[pid] == h;
      } else if h !in t.closed {
        var p :| p in t.handles && t.handles[p] == h;
        assert t'.handles[p] == h;
      }
    }
  }

  lemma WaitKeeps(t: Table, pid: int)
    requires TableInv(t)
    ensures TableInv(Waited(t, pid, 0).0)
  {
    if pid in t.handles {
      var t' := Waited(t, pid, 0).0;
      assert t'.closed[|t.closed|] == t.handles[pid];
      forall h: nat | h < t'.count ensures h in t'.closed || exists p :: p in t'.handles && t'.handles[p] == h {
        if h in t.closed {
          var i :| 0 <= i < |t.closed| && t.closed[i] == h;
          assert t'.closed[i] == h;
        } else {
          var p :| p in t.handles && t.handles[p] == h;
          assert p == pid || (p in t'.handles && t'.handles[p] == h);
        }
      }
    }
  }

  /** A new process never has the pid of one spawned and not yet waited for. */
  ghost predicate FreshSpawns(log: seq<Event>)
  {
    forall k | 0 <= k < |log| && log[k].Spawned? :: log[k].pid !in Outstanding(log[..k])
  }

  lemma FreshBefore(log: seq<Event>, n: nat)
    requires FreshSpawns(log) && n <= |log|
    ensures FreshSpawns(log[..n])
  {
    forall k | 0 <= k < n && log[..n][k].Spawned? ensures log[..n][k].pid !in Outstanding(log[..n][..k]) {
      assert log[..n][k] == log[k] && log[..n][..k] == log[..k];
    }
  }

  lemma HandledKeeps(t: Table, e: Event)
    requires TableInv(t) && (e.Spawned? ==> e.pid !in t.handles)
    ensures TableInv(Handled(t, e)) && Handled(t, e).handles.Keys == After(t.handles.Keys, e)
  {
    if e.Spawned? {
      OpenKeeps(t, e.pid);
    } else if e.Reaped? {
      WaitKeeps(t, e.pid);
    }
  }

  /** Over any sequence of spawns and waits, waits for unknown pids included, in which a new process
      never has a pid still in the table: the keys are exactly the spawned and not yet waited for,
      and no handle is closed twice or closed while it is in the table. */
  lemma {:induction false} TableTracksChildren(log: seq<Event>)
    requires FreshSpawns(log)
    ensures Replay(log).handles.Keys == Outstanding(log)
    ensures TableInv(Replay(log))
  {
    if log != [] {
      var n := |log| - 1;
      FreshBefore(log, n);
      TableTracksChildren(log[..n]);
      HandledKeeps(Replay(log[..n]), log[n]);
    }
  }

  lemma {:induction false} SoundSpawns(log: seq<Event>, k: nat)
    requires Sound(log) && k < |log| && log[k].Spawned?
    ensures log[k].pid !in Outstanding(log[..k])
  {
    var n := |log| - 1;
    if k < n {
      SoundSpawns(log[..n], k);
      assert log[..n][..k] == log[..k];
    }
  }

  /** Under `RunnerManager`: at every point of every run the table's keys are the children, and after
      `stop_all` the table is empty and every handle ever opened has been closed exactly once. */
  lemma ManagerClosesEveryHandle(c: Config, ops: seq<Op>, order: seq<string>, alive: (int, nat) -> bool)
    requires PossibleAll(c, NOTHING, ops) && Enumerates(order, ApplyAll(c, NOTHING, ops).runners)
    ensures var w := ApplyAll(c, NOTHING, ops);
            Replay(w.log).handles.Keys == w.children && TableInv(Replay(w.log))
    ensures var t := Replay(Registry.StopAll(ApplyAll(c, NOTHING, ops), order, alive).log);
            && t.handles == map[]
            && (forall h: nat :: h < t.count <==> h in t.closed)
            && (forall i, j | 0 <= i < j < |t.closed| :: t.closed[i] != t.closed[j])
  {
    var w := ApplyAll(c, NOTHING, ops);
    NoLeakedChildren(c, NOTHING, ops);
    StopAllKeepsInv(w, order, alive);
    var w' := Registry.StopAll(w, order, alive);
    forall k | 0 <= k < |w.log| && w.log[k].Spawned? ensures w.log[k].pid !in Outstanding(w.log[..k]) {
      SoundSpawns(w.log, k);
    }
    forall k | 0 <= k < |w'.log| && w'.log[k].Spawned? ensures w'.log[k].pid !in Outstanding(w'.log[..k]) {
      SoundSpawns(w'.log, k);
    }
    TableTracksChildren(w.log);
    TableTracksChildren(w'.log);
    var t := Replay(w'.log);
    assert t.handles.Keys == {};
    forall h: nat | h in t.closed ensures h < t.count {
      var i :| 0 <= i < |t.closed| && t.closed[i] == h;
    }
  }
}
