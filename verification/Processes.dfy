/** The child processes of the server: what it does to them, the stop protocol, and the children a log
    of such events leaves unreaped. */
module Processes {
  import opened Prelude

  // ---- the operating system ----

  datatype Signal = Term | Kill

  datatype Event =
    | Spawned(pid: int)
    | Signalled(pid: int, signal: Signal)
    | Polled(pid: int, alive: bool)
    | Reaped(pid: int)

  /** `children`: processes spawned and not yet waited for. */
  class Os {
    var children: set<int>
    var log: seq<Event>

    constructor ()
      ensures children == {} && log == []
    {
      children, log := {}, [];
    }

    method SpawnProcess(answer: int) returns (pid: int)
      modifies this
      ensures pid == answer
      ensures pid < 0 ==> children == old(children) && log == old(log)
      ensures pid >= 0 ==> children == old(children) + {pid} && log == old(log) + [Spawned(pid)]
    {
      pid := answer;
      if pid >= 0 {
        children, log := children + {pid}, log + [Spawned(pid)];
      }
    }

    method KillProcess(pid: int, signal: Signal)
      modifies this`log
      ensures log == old(log) + [Signalled(pid, signal)]
    {
      log := log + [Signalled(pid, signal)];
    }

    method ProcessIsAlive(pid: int, answer: bool) returns (alive: bool)
      modifies this`log
      ensures alive == answer && log == old(log) + [Polled(pid, alive)]
    {
      alive := answer;
      log := log + [Polled(pid, alive)];
    }

    method WaitProcess(pid: int)
      modifies this
      ensures children == old(children) - {pid} && log == old(log) + [Reaped(pid)]
    {
      children, log := children - {pid}, log + [Reaped(pid)];
    }
  }

  // ---- the stop protocol ----

  const POLLS: nat := 50
  const PROBES: nat := 100

  function PollLog(pid: int, alive: nat -> bool, i: nat): seq<Event>
    requires i <= POLLS
    decreases POLLS - i, pid
  {
    if i == POLLS then [Signalled(pid, Kill), Reaped(pid)]
    else [Polled(pid, alive(i))] + if alive(i) then PollLog(pid, alive, i + 1) else [Reaped(pid)]
  }

  function StopLog(pid: int, alive: nat -> bool): seq<Event>
  {
    [Signalled(pid, Term)] + PollLog(pid, alive, 0)
  }

  method StopWithTimeout(os: Os, pid: int, alive: nat -> bool)
    modifies os
    ensures os.children == old(os.children) - {pid}
    ensures os.log == old(os.log) + StopLog(pid, alive)
  {
    os.KillProcess(pid, Term);
    var i := 0;
    ghost var before := old(os.log);
    Assoc(before, [Signalled(pid, Term)], PollLog(pid, alive, 0));
    while i < POLLS
      invariant i <= POLLS && os.children == old(os.children)
      invariant os.log + PollLog(pid, alive, i) == before + StopLog(pid, alive)
    {
      ghost var sofar := os.log;
      var up := os.ProcessIsAlive(pid, alive(i));
      Assoc(sofar, [Polled(pid, up)], if up then PollLog(pid, alive, i + 1) else [Reaped(pid)]);
      if !up {
        os.WaitProcess(pid);
        return;
      }
      i := i + 1;
    }
    Assoc(os.log, [Signalled(pid, Kill)], [Reaped(pid)]);
    os.KillProcess(pid, Kill);
    os.WaitProcess(pid);
  }

  function AlivePolls(pid: int, n: nat): seq<Event>
  {
    seq(n, _ => Polled(pid, true))
  }

  lemma {:induction false} PollLogShape(pid: int, alive: nat -> bool, i: nat, k: nat)
    requires i <= k <= POLLS
    requires (forall j | i <= j < k :: alive(j)) && (k < POLLS ==> !alive(k))
    ensures PollLog(pid, alive, i) ==
            AlivePolls(pid, k - i) + [if k < POLLS then Polled(pid, false) else Signalled(pid, Kill), Reaped(pid)]
    decreases k - i
  {
    if i < k {
      PollLogShape(pid, alive, i + 1, k);
      assert AlivePolls(pid, k - i) == [Polled(pid, true)] + AlivePolls(pid, k - i - 1);
    } else {
      assert AlivePolls(pid, 0) == [];
    }
  }

  /** How many polls from `i` on find the process alive, before one does not or the polls are used up. */
  function AliveFrom(alive: nat -> bool, i: nat): (k: nat)
    requires i <= POLLS
    ensures i <= k <= POLLS
    ensures forall j | i <= j < k :: alive(j)
    ensures k < POLLS ==> !alive(k)
    decreases POLLS - i
  {
    if i < POLLS && alive(i) then AliveFrom(alive, i + 1) else i
  }

  function LastResort(pid: int, k: nat): Event
  {
    if k < POLLS then Polled(pid, false) else Signalled(pid, Kill)
  }

  /** A log of that shape kills only as a last resort, and waits once, last. */
  lemma ShapeMeans(pid: int, k: nat, log: seq<Event>)
    requires k <= POLLS
    requires log == [Signalled(pid, Term)] + AlivePolls(pid, k) + [LastResort(pid, k), Reaped(pid)]
    ensures forall p :: Signalled(p, Kill) in log <==> p == pid && k == POLLS
    ensures forall n | 0 <= n < |log| :: log[n] == Reaped(pid) <==> n == |log| - 1
  {
    var polls := AlivePolls(pid, k);
    assert forall i | 0 <= i < k :: polls[i] == Polled(pid, true);
    assert log[0] == Signalled(pid, Term) && log[k + 1] == LastResort(pid, k) && log[k + 2] == Reaped(pid);
    assert forall i | 1 <= i <= k :: log[i] == polls[i - 1];
  }

  /** For every liveness oracle: SIGTERM, then polls that find the process alive, then either a poll
      that does not, or after exactly 50 of them SIGKILL; and last, once, the wait. */
  lemma StopProtocol(pid: int, alive: nat -> bool)
    ensures var k := AliveFrom(alive, 0);
            StopLog(pid, alive) == [Signalled(pid, Term)] + AlivePolls(pid, k) + [LastResort(pid, k), Reaped(pid)]
    ensures StopLog(pid, alive)[0] == Signalled(pid, Term)
    ensures forall p :: Signalled(p, Kill) in StopLog(pid, alive) <==> p == pid && forall j | 0 <= j < 50 :: alive(j)
    ensures forall n | 0 <= n < |StopLog(pid, alive)| ::
              StopLog(pid, alive)[n] == Reaped(pid) <==> n == |StopLog(pid, alive)| - 1
  {
    var k := AliveFrom(alive, 0);
    ShapeOfStop(pid, alive);
    ShapeMeans(pid, k, StopLog(pid, alive));
    KillMeansUsedUp(alive);
  }

  lemma ShapeOfStop(pid: int, alive: nat -> bool)
    ensures var k := AliveFrom(alive, 0);
            StopLog(pid, alive) == [Signalled(pid, Term)] + AlivePolls(pid, k) + [LastResort(pid, k), Reaped(pid)]
  {
    var k := AliveFrom(alive, 0);
    PollLogShape(pid, alive, 0, k);
    Assoc([Signalled(pid, Term)], AlivePolls(pid, k), [LastResort(pid, k), Reaped(pid)]);
  }

  lemma KillMeansUsedUp(alive: nat -> bool)
    ensures AliveFrom(alive, 0) == POLLS <==> forall j | 0 <= j < POLLS :: alive(j)
  {}

  // ---- what a log leaves ----

  function After(children: set<int>, e: Event): set<int>
  {
    match e
    case Spawned(pid) => children + {pid}
    case Reaped(pid) => children - {pid}
    case _ => children
  }

  predicate Legal(children: set<int>, e: Event)
  {
    match e
    case Spawned(pid) => pid !in children
    case Reaped(pid) => pid in children
    case _ => true
  }

  /** The children a log leaves: spawned and not reaped since. */
  function Outstanding(log: seq<Event>): set<int>
  {
    if log == [] then {} else After(Outstanding(log[..|log| - 1]), log[|log| - 1])
  }

  /** Every spawn gets a pid that is not outstanding, every wait is for one that is. */
  predicate Sound(log: seq<Event>)
  {
    log == [] || (Sound(log[..|log| - 1]) && Legal(Outstanding(log[..|log| - 1]), log[|log| - 1]))
  }

  lemma LogOne(log: seq<Event>, e: Event)
    ensures Outstanding(log + [e]) == After(Outstanding(log), e)
    ensures Sound(log + [e]) == (Sound(log) && Legal(Outstanding(log), e))
  {}

  lemma {:induction false} LogPolls(log: seq<Event>, pid: int, alive: nat -> bool, i: nat)
    requires i <= POLLS && Sound(log) && pid in Outstanding(log)
    ensures Sound(log + PollLog(pid, alive, i))
    ensures Outstanding(log + PollLog(pid, alive, i)) == Outstanding(log) - {pid}
    decreases POLLS - i
  {
    var e := if i == POLLS then Signalled(pid, Kill) else Polled(pid, alive(i));
    var log' := log + [e];
    LogOne(log, e);
    if i < POLLS && alive(i) {
      LogPolls(log', pid, alive, i + 1);
      Assoc(log, [e], PollLog(pid, alive, i + 1));
    } else {
      LogOne(log', Reaped(pid));
      Assoc(log, [e], [Reaped(pid)]);
      assert PollLog(pid, alive, i) == [e] + [Reaped(pid)];
    }
  }

  lemma LogStop(log: seq<Event>, pid: int, alive: nat -> bool)
    requires Sound(log) && pid in Outstanding(log)
    ensures Sound(log + StopLog(pid, alive))
    ensures Outstanding(log + StopLog(pid, alive)) == Outstanding(log) - {pid}
  {
    LogOne(log, Signalled(pid, Term));
    LogPolls(log + [Signalled(pid, Term)], pid, alive, 0);
    Assoc(log, [Signalled(pid, Term)], PollLog(pid, alive, 0));
  }

  // ---- no wait comes unannounced ----

  /** The processes sent SIGTERM since they were spawned, and not waited for since. */
  function Warned(log: seq<Event>): set<int>
  {
    if log == [] then {} else
      var (before, e) := (Warned(log[..|log| - 1]), log[|log| - 1]);
      match e
      case Spawned(pid) => before - {pid}
      case Signalled(pid, Term) => before + {pid}
      case Reaped(pid) => before - {pid}
      case _ => before
  }

  predicate Announced(log: seq<Event>)
  {
    log == [] ||
    (Announced(log[..|log| - 1]) && (log[|log| - 1].Reaped? ==> log[|log| - 1].pid in Warned(log[..|log| - 1])))
  }

  predicate Marks(e: Event, pid: int)
  {
    e == Spawned(pid) || e == Reaped(pid)
  }

  lemma WarnOne(log: seq<Event>, e: Event)
    ensures Announced(log + [e]) == (Announced(log) && (e.Reaped? ==> e.pid in Warned(log)))
    ensures e.Signalled? && e.signal == Term ==> Warned(log + [e]) == Warned(log) + {e.pid}
    ensures e.Polled? || (e.Signalled? && e.signal == Kill) ==> Warned(log + [e]) == Warned(log)
    ensures e.Spawned? || e.Reaped? ==> Warned(log + [e]) == Warned(log) - {e.pid}
  {
    assert (log + [e])[..|log|] == log;
  }

  lemma {:induction false} WarnPolls(log: seq<Event>, pid: int, alive: nat -> bool, i: nat)
    requires i <= POLLS && Announced(log) && pid in Warned(log)
    ensures Announced(log + PollLog(pid, alive, i)) && Warned(log + PollLog(pid, alive, i)) == Warned(log) - {pid}
    decreases POLLS - i
  {
    var e := if i == POLLS then Signalled(pid, Kill) else Polled(pid, alive(i));
    var log' := log + [e];
    WarnOne(log, e);
    assert Announced(log') && Warned(log') == Warned(log);
    if i < POLLS && alive(i) {
      WarnPolls(log', pid, alive, i + 1);
      Assoc(log, [e], PollLog(pid, alive, i + 1));
    } else {
      WarnOne(log', Reaped(pid));
      Assoc(log, [e], [Reaped(pid)]);
      assert PollLog(pid, alive, i) == [e] + [Reaped(pid)];
    }
  }

  lemma WarnStop(log: seq<Event>, pid: int, alive: nat -> bool)
    requires Announced(log)
    ensures Announced(log + StopLog(pid, alive)) && Warned(log + StopLog(pid, alive)) == Warned(log) - {pid}
  {
    WarnOne(log, Signalled(pid, Term));
    WarnPolls(log + [Signalled(pid, Term)], pid, alive, 0);
    Assoc(log, [Signalled(pid, Term)], PollLog(pid, alive, 0));
  }

  /** A warned process was sent SIGTERM, and neither spawned nor waited for since. */
  lemma {:induction false} WarnedMeans(log: seq<Event>, pid: int) returns (k: nat)
    requires pid in Warned(log)
    ensures k < |log| && log[k] == Signalled(pid, Term) && forall n | k < n < |log| :: !Marks(log[n], pid)
  {
    var last := |log| - 1;
    if log[last] == Signalled(pid, Term) {
      k := last;
    } else {
      k := WarnedMeans(log[..last], pid);
    }
  }

  lemma {:induction false} OutstandingMeans(log: seq<Event>, pid: int) returns (i: nat)
    requires pid in Outstanding(log)
    ensures i < |log| && log[i] == Spawned(pid) && forall n | i < n < |log| :: !Marks(log[n], pid)
  {
    var last := |log| - 1;
    if log[last] == Spawned(pid) {
      i := last;
    } else {
      i := OutstandingMeans(log[..last], pid);
    }
  }

  lemma {:induction false} PrefixAnnounced(log: seq<Event>, j: nat)
    requires Sound(log) && Announced(log) && j < |log| && log[j].Reaped?
    ensures log[j].pid in Outstanding(log[..j]) && log[j].pid in Warned(log[..j])
  {
    var last := |log| - 1;
    if j < last {
      PrefixAnnounced(log[..last], j);
      assert log[..last][..j] == log[..j];
    }
  }

  /** In such a log every wait for a process comes after a SIGTERM to it, and that after its spawn, with
      neither another spawn nor another wait of that pid in between. */
  lemma WaitsAreAnnounced(log: seq<Event>, j: nat)
    requires Sound(log) && Announced(log) && j < |log| && log[j].Reaped?
    ensures exists i, k :: 0 <= i < k < j && log[i] == Spawned(log[j].pid) && log[k] == Signalled(log[j].pid, Term)
                          && forall n | i < n < j :: !Marks(log[n], log[j].pid)
  {
    var pid := log[j].pid;
    PrefixAnnounced(log, j);
    var i := OutstandingMeans(log[..j], pid);
    var k := WarnedMeans(log[..j], pid);
    assert Marks(log[i], pid);
    assert 0 <= i < k < j && log[i] == Spawned(pid) && log[k] == Signalled(pid, Term);
    assert forall n | i < n < j :: log[n] == log[..j][n];
  }
}
