/** `IOPipe`: the byte pipe between the thread that produces events and the one that sends them. */
module IoPipes {
  import opened Prelude

  const MAX_BUFFER: nat := 0x10_0000

  datatype Pipe = Pipe(buf: string, done: bool, aborted: bool)

  const EMPTY := Pipe("", false, false)

  /** A read waits while the buffer is empty and the pipe open; no bytes means the end of the stream. */
  datatype ReadResult = Blocked | Bytes(data: string)

  predicate Refuses(p: Pipe)
  {
    p.aborted || p.done
  }

  /** The write that passes the mark is inserted all the same; it and every later one report false. */
  function Write(p: Pipe, data: string): (r: (Pipe, bool))
    ensures r.1 <==> !Refuses(p) && |p.buf| + |data| <= MAX_BUFFER
    ensures r.0.buf == p.buf + (if Refuses(p) then "" else data)
    ensures r.0.aborted <==> p.aborted || (!p.done && |p.buf| + |data| > MAX_BUFFER)
  {
    if Refuses(p) then (p, false) else
      var over := |p.buf + data| > MAX_BUFFER;
      (Pipe(p.buf + data, p.done, over), !over)
  }

  /** At most `count` bytes off the front, all that is there if it fits, and nothing else changes. */
  function Read(p: Pipe, count: nat): (r: (Pipe, ReadResult))
    ensures r.1.Blocked? <==> p.buf == "" && !p.done
    ensures r.1.Blocked? ==> r.0 == p
    ensures r.1.Bytes? ==> p.buf == r.1.data + r.0.buf && |r.1.data| <= count
    ensures r.1.Bytes? ==> r.1.data == p.buf || |r.1.data| == count
    ensures r.0.done == p.done && r.0.aborted == p.aborted
  {
    if p.buf == "" then (p, if p.done then Bytes("") else Blocked) else
      var n := if count < |p.buf| then count else |p.buf|;
      (p.(buf := p.buf[n..]), Bytes(p.buf[..n]))
  }

  class IOPipe {
    var buf: string
    var done: bool
    var aborted: bool

    constructor ()
      ensures Value() == EMPTY
    {
      buf, done, aborted := "", false, false;
    }

    function Value(): Pipe
      reads this
    {
      Pipe(buf, done, aborted)
    }

    method ReadSome(count: nat) returns (r: ReadResult)
      modifies this
      ensures (Value(), r) == Read(old(Value()), count)
    {
      if buf == "" && !done {
        return Blocked;
      }
      if buf == "" {
        return Bytes("");
      }
      var n := if count < |buf| then count else |buf|;
      r := Bytes(buf[..n]);
      buf := buf[n..];
    }

    method WriteAll(data: string) returns (ok: bool)
      modifies this
      ensures (Value(), ok) == Write(old(Value()), data)
    {
      if aborted || done {
        return false;
      }
      buf := buf + data;
      if |buf| > MAX_BUFFER {
        aborted := true;
      }
      return !aborted;
    }

    method Close()
      modifies this
      ensures Value() == old(Value()).(done := true)
    {
      done := true;
    }
  }

  // ---- runs ----

  datatype Op = DoWrite(data: string) | DoRead(count: nat) | DoClose

  /** A pipe with its history: the writes attempted, those inserted, the bytes read, and whether a
      read that asked for bytes has got none. */
  datatype Trace = Trace(pipe: Pipe, attempted: seq<string>, inserted: seq<string>, out: string, ended: bool)

  const FRESH := Trace(EMPTY, [], [], "", false)

  function Act(t: Trace, op: Op): Trace
  {
    match op
    case DoWrite(data) =>
      t.(pipe := Write(t.pipe, data).0,
         attempted := t.attempted + [data],
         inserted := if Refuses(t.pipe) then t.inserted else t.inserted + [data])
    case DoRead(count) =>
      (match Read(t.pipe, count)
       case (_, Blocked) => t
       case (p, Bytes(data)) => t.(pipe := p, out := t.out + data, ended := t.ended || (count > 0 && data == "")))
    case DoClose =>
      t.(pipe := t.pipe.(done := true))
  }

  function ActAll(t: Trace, ops: seq<Op>): Trace
    decreases ops
  {
    if ops == [] then t else ActAll(Act(t, ops[0]), ops[1..])
  }

  /** Nothing is lost or reordered; what is inserted is a prefix of what was attempted; the buffer is
      within the mark unless the pipe was aborted, and then over it by at most the last write. */
  ghost predicate Conserved(t: Trace)
  {
    && t.out + t.pipe.buf == Concat(t.inserted)
    && t.inserted <= t.attempted
    && (!Refuses(t.pipe) ==> t.inserted == t.attempted)
    && (!t.pipe.aborted ==> |t.pipe.buf| <= MAX_BUFFER)
    && (t.pipe.aborted ==> t.inserted != [] && |t.pipe.buf| <= MAX_BUFFER + |t.inserted[|t.inserted| - 1]|)
    && (t.ended ==> t.pipe.done && t.pipe.buf == "")
  }

  lemma ActConserves(t: Trace, op: Op)
    requires Conserved(t)
    ensures Conserved(Act(t, op))
  {
    match op
    case DoWrite(data) =>
      if !Refuses(t.pipe) {
        ConcatOne(t.inserted, data);
        Assoc(t.out, t.pipe.buf, data);
      }
    case DoRead(count) =>
      if t.pipe.buf != "" {
        var n := if count < |t.pipe.buf| then count else |t.pipe.buf|;
        assert t.pipe.buf == t.pipe.buf[..n] + t.pipe.buf[n..];
        Assoc(t.out, t.pipe.buf[..n], t.pipe.buf[n..]);
      } else {
        assert t.out + "" == t.out;
      }
    case DoClose =>
  }

  lemma {:induction false} RunConserves(t: Trace, ops: seq<Op>)
    requires Conserved(t)
    ensures Conserved(ActAll(t, ops))
    decreases ops
  {
    if ops != [] {
      ActConserves(t, ops[0]);
      RunConserves(Act(t, ops[0]), ops[1..]);
    }
  }

  /** Over every run from a fresh pipe. */
  lemma PipeConservation(ops: seq<Op>)
    ensures Conserved(ActAll(FRESH, ops))
    ensures !ActAll(FRESH, ops).pipe.aborted ==> |ActAll(FRESH, ops).pipe.buf| <= 1024 * 1024
  {
    RunConserves(FRESH, ops);
  }

  /** How many bytes a run asks for. */
  function Asked(ops: seq<Op>): nat
  {
    if ops == [] then 0 else (if ops[0].DoRead? then ops[0].count else 0) + Asked(ops[1..])
  }

  /** Over every run, each read delivers at most what it asks for, of what is there as much as it asks
      for, and nothing but a read delivers anything. */
  lemma {:induction false} ReadsAreBounded(t: Trace, ops: seq<Op>)
    ensures t.out <= ActAll(t, ops).out && |ActAll(t, ops).out| <= |t.out| + Asked(ops)
    ensures forall count: nat ::
              |Act(t, DoRead(count)).out| - |t.out| == if count < |t.pipe.buf| then count else |t.pipe.buf|
    decreases ops
  {
    forall count: nat
      ensures |Act(t, DoRead(count)).out| - |t.out| == if count < |t.pipe.buf| then count else |t.pipe.buf| {
      ReadOne(t, count);
    }
    if ops != [] {
      ReadsAreBounded(Act(t, ops[0]), ops[1..]);
    }
  }

  lemma ReadOne(t: Trace, count: nat)
    ensures |Act(t, DoRead(count)).out| - |t.out| == if count < |t.pipe.buf| then count else |t.pipe.buf|
  {}

  /** Once the pipe refuses it refuses for ever: nothing more is inserted, whatever is attempted. */
  lemma {:induction false} RefusalIsFinal(t: Trace, ops: seq<Op>)
    requires Refuses(t.pipe)
    ensures Refuses(ActAll(t, ops).pipe) && ActAll(t, ops).inserted == t.inserted
    decreases ops
  {
    if ops != [] {
      RefusalIsFinal(Act(t, ops[0]), ops[1..]);
    }
  }

  /** Once a read that asked for bytes has got none, everything inserted has been delivered and every
      later read, whatever happens in between, returns no bytes. */
  lemma {:induction false} EndIsFinal(t: Trace, ops: seq<Op>, count: nat)
    requires Conserved(t) && t.ended
    ensures var t' := ActAll(t, ops);
            && t'.out == t.out == Concat(t'.inserted)
            && Read(t'.pipe, count).1 == Bytes("")
    decreases ops
  {
    assert t.out + "" == t.out;
    if ops != [] {
      ActConserves(t, ops[0]);
      EndIsFinal(Act(t, ops[0]), ops[1..], count);
    }
  }
}
