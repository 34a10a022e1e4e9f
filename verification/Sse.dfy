/** Server-sent events: the frames the streaming endpoints write, a decoder for section 9.2.6 of the
    WHATWG HTML Living Standard, and the transcript a client gets through the pipe. */
module Sse {
  import opened Prelude
  import opened IoPipes

  // ---- the client's decoder ----

  /** `line`: the line being read; `afterCr`: a CR has just ended one, so an LF is part of that end;
      `data`: the data buffer; `events`: the data of the events dispatched so far. */
  datatype Decoder = Decoder(line: string, afterCr: bool, data: string, events: seq<string>)

  const READY := Decoder("", false, "", [])

  function FieldName(line: string): string
  {
    match FindChar(line, ':', 0)
    case None => line
    case Some(i) => line[..i]
  }

  function FieldValue(line: string): string
  {
    match FindChar(line, ':', 0)
    case None => ""
    case Some(i) => if i + 1 < |line| && line[i + 1] == ' ' then line[i + 2..] else line[i + 1..]
  }

  function Dispatch(d: Decoder): Decoder
  {
    if d.data == "" then d
    else d.(data := "", events := d.events + [if d.data[|d.data| - 1] == '\n' then d.data[..|d.data| - 1] else d.data])
  }

  /** A comment has an empty field name; fields other than `data` do not touch the data of an event. */
  function EndLine(d: Decoder): Decoder
  {
    var d' := d.(line := "");
    if d.line == "" then Dispatch(d')
    else if FieldName(d.line) == "data" then d'.(data := d.data + FieldValue(d.line) + "\n")
    else d'
  }

  function Take(d: Decoder, c: char): Decoder
  {
    if c == '\n' then (if d.afterCr then d.(afterCr := false) else EndLine(d))
    else if c == '\r' then EndLine(d).(afterCr := true)
    else d.(line := d.line + [c], afterCr := false)
  }

  function TakeAll(d: Decoder, s: string): Decoder
    decreases s
  {
    if s == "" then d else TakeAll(Take(d, s[0]), s[1..])
  }

  function Decode(s: string): seq<string>
  {
    TakeAll(READY, s).events
  }

  lemma {:induction false} TakeAppend(d: Decoder, a: string, b: string)
    ensures TakeAll(d, a + b) == TakeAll(TakeAll(d, a), b)
    decreases a
  {
    if a == "" {
      assert a + b == b;
    } else {
      assert (a + b)[1..] == a[1..] + b;
      TakeAppend(Take(d, a[0]), a[1..], b);
    }
  }

  // ---- frames ----

  function Frame(payload: string): string
  {
    "data: " + payload + "\n\n"
  }

  function Frames(payloads: seq<string>): (r: seq<string>)
    ensures |r| == |payloads| && forall i | 0 <= i < |r| :: r[i] == Frame(payloads[i])
  {
    seq(|payloads|, i requires 0 <= i < |payloads| => Frame(payloads[i]))
  }

  predicate OneLine(s: string)
  {
    '\n' !in s && '\r' !in s
  }

  ghost predicate AllOneLine(payloads: seq<string>)
  {
    forall i | 0 <= i < |payloads| :: OneLine(payloads[i])
  }

  /** Between two events. */
  predicate Idle(d: Decoder)
  {
    d.line == "" && d.data == "" && !d.afterCr
  }

  lemma {:induction false} TakePlain(d: Decoder, s: string)
    requires OneLine(s) && !d.afterCr
    ensures TakeAll(d, s) == d.(line := d.line + s)
    decreases s
  {
    if s == "" {
      assert d.line + s == d.line;
    } else {
      assert OneLine(s[1..]);
      TakePlain(Take(d, s[0]), s[1..]);
      Assoc(d.line, [s[0]], s[1..]);
      assert [s[0]] + s[1..] == s;
    }
  }

  lemma DataField(payload: string)
    ensures FieldName("data: " + payload) == "data" && FieldValue("data: " + payload) == payload
  {
    var line := "data: " + payload;
    assert line[4] == ':' && forall i | 0 <= i < 4 :: line[i] != ':';
    assert FindChar(line, ':', 0) == Some(4);
    assert line[..4] == "data" && line[5] == ' ' && line[6..] == payload;
  }

  lemma TakeNewline(d: Decoder)
    requires !d.afterCr
    ensures TakeAll(d, "\n") == EndLine(d)
  {}

  lemma TakeDataLine(d: Decoder, payload: string)
    requires Idle(d) && OneLine(payload)
    ensures TakeAll(d, "data: " + payload + "\n") == d.(data := payload + "\n")
  {
    var line := "data: " + payload;
    assert OneLine(line) && d.line + line == line && d.data + payload == payload;
    TakePlain(d, line);
    DataField(payload);
    TakeAppend(d, line, "\n");
    TakeNewline(d.(line := line));
  }

  /** A frame without its last byte dispatches nothing; with it, exactly its payload. */
  lemma TakeFrame(d: Decoder, payload: string)
    requires Idle(d) && OneLine(payload)
    ensures TakeAll(d, "data: " + payload + "\n") == d.(data := payload + "\n")
    ensures TakeAll(d, Frame(payload)) == d.(events := d.events + [payload])
  {
    var line := "data: " + payload + "\n";
    TakeDataLine(d, payload);
    assert Frame(payload) == line + "\n";
    TakeAppend(d, line, "\n");
    TakeNewline(d.(data := payload + "\n"));
    assert (payload + "\n")[..|payload|] == payload;
  }

  lemma TakePartOfFrame(d: Decoder, payload: string, q: string)
    requires Idle(d) && OneLine(payload) && q < Frame(payload)
    ensures TakeAll(d, q).events == d.events
  {
    var line := "data: " + payload;
    if |q| == |line| + 1 {
      assert q == line + "\n";
      TakeFrame(d, payload);
    } else {
      assert q <= line && OneLine(line);
      assert forall i | 0 <= i < |q| :: q[i] == line[i];
      TakePlain(d, q);
    }
  }

  lemma {:induction false} DecodeFrom(d: Decoder, payloads: seq<string>, bytes: string)
    requires Idle(d) && AllOneLine(payloads) && bytes <= Concat(Frames(payloads))
    ensures d.events <= TakeAll(d, bytes).events <= d.events + payloads
    ensures bytes == Concat(Frames(payloads)) ==> TakeAll(d, bytes) == d.(events := d.events + payloads)
    decreases payloads
  {
    if payloads == [] {
      assert d.events + [] == d.events;
    } else {
      var p, rest := payloads[0], payloads[1..];
      assert Frames(payloads)[1..] == Frames(rest);
      assert Concat(Frames(payloads)) == Frame(p) + Concat(Frames(rest));
      assert d.events + payloads == (d.events + [p]) + rest;
      if |bytes| < |Frame(p)| {
        assert bytes == Concat(Frames(payloads))[..|bytes|] == Frame(p)[..|bytes|];
        TakePartOfFrame(d, p, bytes);
      } else {
        var tail := bytes[|Frame(p)|..];
        assert bytes == Frame(p) + tail;
        assert tail <= Concat(Frames(rest));
        TakeAppend(d, Frame(p), tail);
        TakeFrame(d, p);
        DecodeFrom(d.(events := d.events + [p]), rest, tail);
      }
    }
  }

  /** The standard's decoder inverts framing: any beginning of the frames decodes to a prefix of the
      payloads, and the whole to all of them. */
  lemma DecodeFrames(payloads: seq<string>, bytes: string)
    requires AllOneLine(payloads) && bytes <= Concat(Frames(payloads))
    ensures Decode(bytes) <= payloads
    ensures bytes == Concat(Frames(payloads)) ==> Decode(bytes) == payloads
  {
    DecodeFrom(READY, payloads, bytes);
    assert [] + payloads == payloads;
  }

  // ---- the producer thread and the reader ----

  const DONE_MARK := "[DONE]"

  /** The payloads of one response: the role event of a chat, the events of the tokens `on_token` is
      offered, and the error event if the runner's call ends with one. */
  datatype Script = Script(role: Option<string>, tokens: seq<string>, error: Option<string>)

  function Listed(payload: Option<string>): seq<string>
  {
    if payload.Some? then [payload.value] else []
  }

  /** The events of a response nothing interrupts. */
  function Full(s: Script): seq<string>
  {
    Listed(s.role) + s.tokens + Listed(s.error) + [DONE_MARK]
  }

  /** Where the producer thread is. */
  datatype Phase = Opening | Token(i: nat) | Failing | Marking | Closing | Closed

  /** `cut`: `on_token` has returned false, which ends the runner's stream. */
  datatype Session = Session(phase: Phase, trace: Trace, cut: bool)

  const OPEN := Session(Opening, FRESH, false)

  datatype Turn = Produce | Fetch(count: nat)

  function Send(trace: Trace, payload: string): Trace
  {
    Act(trace, DoWrite(Frame(payload)))
  }

  function SendIfAny(trace: Trace, payload: Option<string>): Trace
  {
    if payload.Some? then Send(trace, payload.value) else trace
  }

  /** One step of the producer thread. Only `on_token` looks at what a write returns. */
  function Produced(s: Script, x: Session): Session
  {
    match x.phase
    case Opening => Session(Token(0), SendIfAny(x.trace, s.role), x.cut)
    case Token(i) =>
      if i >= |s.tokens| then x.(phase := Failing) else
        var ok := Write(x.trace.pipe, Frame(s.tokens[i])).1;
        Session(if ok then Token(i + 1) else Failing, Send(x.trace, s.tokens[i]), !ok)
    case Failing => x.(phase := Marking, trace := SendIfAny(x.trace, s.error))
    case Marking => x.(phase := Closing, trace := Send(x.trace, DONE_MARK))
    case Closing => x.(phase := Closed, trace := Act(x.trace, DoClose))
    case Closed => x
  }

  function Turned(s: Script, x: Session, turn: Turn): Session
  {
    match turn
    case Produce => Produced(s, x)
    case Fetch(count) => x.(trace := Act(x.trace, DoRead(count)))
  }

  function Play(s: Script, x: Session, turns: seq<Turn>): Session
    decreases turns
  {
    if turns == [] then x else Play(s, Turned(s, x, turns[0]), turns[1..])
  }

  /** The payloads attempted by the time an uncut producer reaches `p`. */
  function Said(s: Script, p: Phase): seq<string>
  {
    match p
    case Opening => []
    case Token(i) => Listed(s.role) + s.tokens[..if i <= |s.tokens| then i else |s.tokens|]
    case Failing => Listed(s.role) + s.tokens
    case Marking => Listed(s.role) + s.tokens + Listed(s.error)
    case Closing => Full(s)
    case Closed => Full(s)
  }

  /** The producer's side of the invariant; `pipe` and `read` sides are in `Conserved`. */
  ghost predicate ProducerInv(s: Script, x: Session)
  {
    && (x.phase.Token? ==> x.phase.i <= |s.tokens|)
    && (!x.cut ==> x.trace.attempted == Frames(Said(s, x.phase)))
    && (x.cut ==> x.trace.pipe.aborted && !x.phase.Opening? && !x.phase.Token?
                  && x.trace.inserted <= Frames(Said(s, Failing)))
    && (x.trace.pipe.done <==> x.phase.Closed?)
    && (!x.trace.pipe.aborted ==> x.trace.inserted == x.trace.attempted)
  }

  lemma SaidGrows(s: Script, p: Phase)
    ensures p.Opening? ==> Said(s, Token(0)) == Said(s, p) + Listed(s.role)
    ensures p.Token? && p.i < |s.tokens| ==> Said(s, Token(p.i + 1)) == Said(s, p) + [s.tokens[p.i]]
    ensures p.Token? && p.i == |s.tokens| ==> Said(s, Failing) == Said(s, p)
    ensures p.Token? ==> Said(s, p) <= Said(s, Failing)
    ensures p.Failing? ==> Said(s, Marking) == Said(s, p) + Listed(s.error)
    ensures p.Marking? ==> Said(s, Closing) == Said(s, p) + [DONE_MARK]
    ensures Said(s, p) <= Full(s)
  {}

  /** A write to an open pipe: attempted after everything before it, inserted unless refused. */
  lemma SendStep(trace: Trace, payload: string, said: seq<string>)
    requires !trace.pipe.done && (!trace.pipe.aborted ==> trace.inserted == trace.attempted)
    ensures var t := Send(trace, payload);
            && (trace.attempted == Frames(said) ==> t.attempted == Frames(said + [payload]))
            && (trace.pipe.aborted ==> t.inserted == trace.inserted && t.pipe.aborted)
            && (!t.pipe.aborted ==> t.inserted == t.attempted)
            && (!trace.pipe.aborted ==> t.inserted == t.attempted)
            && (Write(trace.pipe, Frame(payload)).1 <==> !t.pipe.aborted)
            && !t.pipe.done
  {}

  lemma TokenKeeps(s: Script, x: Session)
    requires ProducerInv(s, x) && Conserved(x.trace) && x.phase.Token? && x.phase.i < |s.tokens|
    ensures ProducerInv(s, Produced(s, x))
  {
    var i := x.phase.i;
    SendStep(x.trace, s.tokens[i], Said(s, x.phase));
    SaidGrows(s, x.phase);
    SaidGrows(s, Token(i + 1));
    FramesPrefix(Said(s, Token(i + 1)), Said(s, Failing));
  }

  lemma ProduceKeeps(s: Script, x: Session)
    requires ProducerInv(s, x) && Conserved(x.trace)
    ensures ProducerInv(s, Produced(s, x))
  {
    SaidGrows(s, x.phase);
    match x.phase
    case Opening =>
      if s.role.Some? {
        SendStep(x.trace, s.role.value, []);
      }
    case Token(i) =>
      if i < |s.tokens| {
        TokenKeeps(s, x);
      }
    case Failing =>
      if s.error.Some? {
        SendStep(x.trace, s.error.value, Said(s, x.phase));
      }
    case Marking =>
      SendStep(x.trace, DONE_MARK, Said(s, x.phase));
    case _ =>
  }

  lemma FramesPrefix(a: seq<string>, b: seq<string>)
    requires a <= b
    ensures Frames(a) <= Frames(b)
  {}

  lemma ProduceConserves(s: Script, x: Session)
    requires Conserved(x.trace)
    ensures Conserved(Produced(s, x).trace)
  {
    match x.phase
    case Opening =>
      if s.role.Some? {
        ActConserves(x.trace, DoWrite(Frame(s.role.value)));
      }
    case Token(i) =>
      if i < |s.tokens| {
        ActConserves(x.trace, DoWrite(Frame(s.tokens[i])));
      }
    case Failing =>
      if s.error.Some? {
        ActConserves(x.trace, DoWrite(Frame(s.error.value)));
      }
    case Marking => ActConserves(x.trace, DoWrite(Frame(DONE_MARK)));
    case Closing => ActConserves(x.trace, DoClose);
    case Closed =>
  }

  lemma FetchKeeps(s: Script, x: Session, count: nat)
    requires ProducerInv(s, x)
    ensures ProducerInv(s, Turned(s, x, Fetch(count)))
  {}

  lemma {:induction false} PlayKeeps(s: Script, x: Session, turns: seq<Turn>)
    requires Conserved(x.trace) && ProducerInv(s, x)
    ensures Conserved(Play(s, x, turns).trace) && ProducerInv(s, Play(s, x, turns))
    decreases turns
  {
    if turns != [] {
      match turns[0] {
        case Produce =>
          ProduceKeeps(s, x);
          ProduceConserves(s, x);
        case Fetch(count) =>
          FetchKeeps(s, x, count);
          ActConserves(x.trace, DoRead(count));
      }
      PlayKeeps(s, Turned(s, x, turns[0]), turns[1..]);
    }
  }

  /** What the write of token `i` returns, if the producer gets to it. */
  function TokenWrite(s: Script, x: Session, turns: seq<Turn>, i: nat): Option<bool>
    decreases turns
  {
    if turns == [] then None
    else if turns[0].Produce? && x.phase == Token(i) && i < |s.tokens| then
      Some(Write(x.trace.pipe, Frame(s.tokens[i])).1)
    else TokenWrite(s, Turned(s, x, turns[0]), turns[1..], i)
  }

  lemma {:induction false} RefusedWriteCuts(s: Script, x: Session, turns: seq<Turn>, i: nat)
    requires TokenWrite(s, x, turns, i) == Some(false)
    ensures Play(s, x, turns).cut
    decreases turns
  {
    var x' := Turned(s, x, turns[0]);
    if turns[0].Produce? && x.phase == Token(i) && i < |s.tokens| {
      CutStays(s, x', turns[1..]);
    } else {
      RefusedWriteCuts(s, x', turns[1..], i);
    }
  }

  lemma {:induction false} CutStays(s: Script, x: Session, turns: seq<Turn>)
    requires x.cut && !x.phase.Token? && !x.phase.Opening?
    ensures Play(s, x, turns).cut
    decreases turns
  {
    if turns != [] {
      CutStays(s, Turned(s, x, turns[0]), turns[1..]);
    }
  }

  lemma RefusedWriteAborts(s: Script, turns: seq<Turn>, i: nat)
    requires TokenWrite(s, OPEN, turns, i) == Some(false)
    ensures Play(s, OPEN, turns).trace.pipe.aborted
  {
    RefusedWriteCuts(s, OPEN, turns, i);
    PlayKeeps(s, OPEN, turns);
  }

  lemma InsertedIsScript(s: Script, x: Session)
    requires Conserved(x.trace) && ProducerInv(s, x)
    ensures |x.trace.inserted| <= |Full(s)|
    ensures x.trace.inserted == Frames(Full(s)[..|x.trace.inserted|])
  {
    var p := if x.cut then Failing else x.phase;
    SaidGrows(s, p);
    FramesPrefix(Said(s, p), Full(s));
    assert x.trace.inserted <= Frames(Said(s, p));
  }

  /** The transcript of a response, over every interleaving of the producer with reads of any sizes.
      What has been inserted is a run of whole frames from the start of the script. The client has
      decoded a prefix of those events, and all of them once it has seen the end of the stream. */
  lemma ClientTranscript(s: Script, turns: seq<Turn>)
    requires AllOneLine(Full(s))
    ensures var x := Play(s, OPEN, turns);
            && |x.trace.inserted| <= |Full(s)|
            && x.trace.inserted == Frames(Full(s)[..|x.trace.inserted|])
            && Decode(x.trace.out) <= Full(s)[..|x.trace.inserted|]
            && (x.trace.ended ==> Decode(x.trace.out) == Full(s)[..|x.trace.inserted|])
  {
    PlayKeeps(s, OPEN, turns);
    var x := Play(s, OPEN, turns);
    InsertedIsScript(s, x);
    if x.trace.ended {
      assert x.trace.out + "" == x.trace.out;
    }
    DecodeFrames(Full(s)[..|x.trace.inserted|], x.trace.out);
  }

  /** The whole script has been inserted exactly when the producer got past its last write uncut, with
      every write inserted. After `on_token` has returned false nothing after the tokens is inserted. */
  lemma ScriptComplete(s: Script, turns: seq<Turn>)
    ensures var x := Play(s, OPEN, turns);
            && (x.trace.inserted == Frames(Full(s)) <==>
                  (x.phase.Closing? || x.phase.Closed?) && !x.cut && x.trace.inserted == x.trace.attempted)
            && (x.cut ==> x.trace.inserted <= Frames(Listed(s.role) + s.tokens))
            && (x.phase.Closed? && !x.trace.pipe.aborted ==> x.trace.inserted == Frames(Full(s)))
  {
    PlayKeeps(s, OPEN, turns);
    var x := Play(s, OPEN, turns);
    SaidGrows(s, x.phase);
    assert |Said(s, Failing)| < |Full(s)|;
  }

  lemma FrameInjective(a: string, b: string)
    requires Frame(a) == Frame(b)
    ensures a == b
  {
    var n := |Frame(a)|;
    assert Frame(a)[6..n - 2] == a && Frame(b)[6..n - 2] == b;
  }

  /** Nothing before the mark looks like it. */
  predicate Unmarked(s: Script)
  {
    DONE_MARK !in Listed(s.role) + s.tokens + Listed(s.error)
  }

  /** `[DONE]` at most once, and last. */
  lemma MarkIsLast(s: Script, i: nat)
    requires Unmarked(s) && i < |Full(s)|
    ensures Frames(Full(s))[i] == Frame(DONE_MARK) <==> i == |Full(s)| - 1
    ensures Full(s)[i] == DONE_MARK <==> i == |Full(s)| - 1
  {
    var before := Listed(s.role) + s.tokens + Listed(s.error);
    if i < |before| {
      assert Full(s)[i] == before[i] && before[i] in before;
      if Frame(Full(s)[i]) == Frame(DONE_MARK) {
        FrameInjective(Full(s)[i], DONE_MARK);
      }
    }
  }

  /** In every session `[DONE]` is inserted only last, hence at most once, and exactly when everything
      is; which is when the producer got past it uncut with every write inserted, and never after
      `on_token` has returned false. A client that has decoded it has decoded the whole script. */
  lemma DoneMeansComplete(s: Script, turns: seq<Turn>)
    requires Unmarked(s)
    ensures var x := Play(s, OPEN, turns);
            && (forall i | 0 <= i < |x.trace.inserted| && x.trace.inserted[i] == Frame(DONE_MARK) :: i == |Full(s)| - 1)
            && (Frame(DONE_MARK) in x.trace.inserted <==> x.trace.inserted == Frames(Full(s)))
            && (Frame(DONE_MARK) in x.trace.inserted <==>
                  (x.phase.Closing? || x.phase.Closed?) && !x.cut && x.trace.inserted == x.trace.attempted)
            && (AllOneLine(Full(s)) && DONE_MARK in Decode(x.trace.out) ==> Decode(x.trace.out) == Full(s))
  {
    PlayKeeps(s, OPEN, turns);
    var x := Play(s, OPEN, turns);
    InsertedIsScript(s, x);
    ScriptComplete(s, turns);
    var n := |x.trace.inserted|;
    forall i | 0 <= i < n ensures x.trace.inserted[i] == Frame(DONE_MARK) <==> i == |Full(s)| - 1 {
      MarkIsLast(s, i);
      assert x.trace.inserted[i] == Frames(Full(s))[i];
    }
    if n == |Full(s)| {
      assert Full(s)[..n] == Full(s) && x.trace.inserted[n - 1] == Frame(DONE_MARK);
    }
    if AllOneLine(Full(s)) && DONE_MARK in Decode(x.trace.out) {
      ClientTranscript(s, turns);
      MarkDecoded(s, Decode(x.trace.out));
    }
  }

  /** What a client has read: `[DONE]` at most once, and last; and once it has read it, or seen the end of
      a stream the pipe never refused, the whole script. */
  lemma ScriptClient(s: Script, turns: seq<Turn>)
    requires AllOneLine(Full(s)) && Unmarked(s)
    ensures var x := Play(s, OPEN, turns);
            && Decode(x.trace.out) <= Full(s)
            && (forall i | 0 <= i < |Decode(x.trace.out)| ::
                  Decode(x.trace.out)[i] == DONE_MARK <==> i == |Full(s)| - 1)
            && (DONE_MARK in Decode(x.trace.out) || (x.trace.ended && !x.trace.pipe.aborted) ==>
                  Decode(x.trace.out) == Full(s))
  {
    var x := Play(s, OPEN, turns);
    ClientTranscript(s, turns);
    DoneMeansComplete(s, turns);
    forall i | 0 <= i < |Decode(x.trace.out)|
      ensures Decode(x.trace.out)[i] == DONE_MARK <==> i == |Full(s)| - 1
    {
      MarkIsLast(s, i);
    }
    if x.trace.ended && !x.trace.pipe.aborted {
      EndedIsClosed(s, turns);
      ScriptComplete(s, turns);
      assert Full(s)[..|Full(s)|] == Full(s);
    }
  }

  lemma EndedIsClosed(s: Script, turns: seq<Turn>)
    requires Play(s, OPEN, turns).trace.ended
    ensures Play(s, OPEN, turns).phase.Closed?
  {
    PlayKeeps(s, OPEN, turns);
  }

  lemma MarkDecoded(s: Script, events: seq<string>)
    requires Unmarked(s) && events <= Full(s) && DONE_MARK in events
    ensures events == Full(s)
  {
    var i :| 0 <= i < |events| && events[i] == DONE_MARK;
    MarkIsLast(s, i);
  }

  /** The last write, `[DONE]`, is inserted exactly when the pipe was not aborted before it; and the pipe
      is still not aborted after it exactly when it also fits under the mark. */
  lemma DoneWhenOpen(s: Script, turns: seq<Turn>)
    requires Play(s, OPEN, turns).phase.Marking?
    ensures var x := Play(s, OPEN, turns);
            var y := Produced(s, x);
            && (y.trace.inserted == Frames(Full(s)) <==> !x.trace.pipe.aborted)
            && (y.trace.inserted == Frames(Full(s)) && !y.trace.pipe.aborted <==>
                  !x.trace.pipe.aborted && |x.trace.pipe.buf| + |Frame(DONE_MARK)| <= MAX_BUFFER)
  {
    PlayKeeps(s, OPEN, turns);
    var x := Play(s, OPEN, turns);
    SendStep(x.trace, DONE_MARK, Said(s, x.phase));
    SaidGrows(s, x.phase);
    if x.trace.pipe.aborted {
      assert |x.trace.inserted| <= |x.trace.attempted|;
      assert |Said(s, Failing)| <= |Said(s, Marking)| < |Full(s)|;
    }
  }

  // ---- every response ends ----

  function ProduceTurns(turns: seq<Turn>): nat
  {
    if turns == [] then 0 else (if turns[0].Produce? then 1 else 0) + ProduceTurns(turns[1..])
  }

  /** How often bytes are asked for. */
  function Fetches(turns: seq<Turn>): nat
  {
    if turns == [] then 0 else (if turns[0].Fetch? && turns[0].count > 0 then 1 else 0) + Fetches(turns[1..])
  }

  /** At most how many steps the producer takes from `p` until it has closed the pipe. */
  function StepsToClose(s: Script, p: Phase): nat
  {
    match p
    case Opening => |s.tokens| + 5
    case Token(i) => if i <= |s.tokens| then |s.tokens| - i + 4 else 4
    case Failing => 3
    case Marking => 2
    case Closing => 1
    case Closed => 0
  }

  lemma {:induction false} ProducerFinishes(s: Script, x: Session, turns: seq<Turn>)
    requires ProduceTurns(turns) >= StepsToClose(s, x.phase)
    requires x.phase.Closed? ==> x.trace.pipe.done
    ensures Play(s, x, turns).phase.Closed? && Play(s, x, turns).trace.pipe.done
    decreases turns
  {
    if turns != [] {
      ProducerFinishes(s, Turned(s, x, turns[0]), turns[1..]);
    }
  }

  lemma {:induction false} ReaderFinishes(s: Script, x: Session, turns: seq<Turn>)
    requires x.phase.Closed? && x.trace.pipe.done
    requires x.trace.ended || Fetches(turns) > |x.trace.pipe.buf|
    ensures Play(s, x, turns).trace.ended
    decreases turns
  {
    if turns != [] {
      ReaderFinishes(s, Turned(s, x, turns[0]), turns[1..]);
    }
  }

  /** Over every interleaving: once the producer has had as many turns as there are tokens, and five
      more, the pipe is closed, whatever was refused; and from then on each read that asks for bytes gets
      some until the client sees the end. */
  lemma EveryResponseEnds(s: Script, before: seq<Turn>, after: seq<Turn>)
    requires ProduceTurns(before) >= |s.tokens| + 5
    ensures Play(s, OPEN, before).phase.Closed? && Play(s, OPEN, before).trace.pipe.done
    ensures Fetches(after) > |Play(s, OPEN, before).trace.pipe.buf| ==> Play(s, OPEN, before + after).trace.ended
  {
    ProducerFinishes(s, OPEN, before);
    PlayAppend(s, OPEN, before, after);
    if Fetches(after) > |Play(s, OPEN, before).trace.pipe.buf| {
      ReaderFinishes(s, Play(s, OPEN, before), after);
    }
  }

  // ---- a response nobody reads ----

  function Produces(n: nat): (r: seq<Turn>)
    ensures |r| == n && forall i | 0 <= i < n :: r[i] == Produce
  {
    seq(n, _ => Produce)
  }

  /** How many steps the producer takes from `p` to its last write. */
  function StepsLeft(s: Script, p: Phase): nat
  {
    match p
    case Opening => |s.tokens| + 3
    case Token(i) => if i <= |s.tokens| then |s.tokens| - i + 2 else 0
    case Failing => 1
    case _ => 0
  }

  /** The bytes of everything before `[DONE]`. */
  function Weight(s: Script): nat
  {
    |Concat(Frames(Said(s, Marking)))|
  }

  /** Nothing has been read, refused or closed so far. */
  ghost predicate Filling(s: Script, x: Session)
  {
    && ProducerInv(s, x) && Conserved(x.trace)
    && x.trace.out == "" && !x.cut && !x.trace.pipe.aborted && !x.phase.Closing? && !x.phase.Closed?
  }

  lemma ConcatPrefix(a: seq<string>, b: seq<string>)
    requires a <= b
    ensures |Concat(a)| <= |Concat(b)|
  {
    assert b == a + b[|a|..];
    ConcatAppend(a, b[|a|..]);
  }

  lemma BufferIsSaid(s: Script, x: Session)
    requires Filling(s, x)
    ensures x.trace.pipe.buf == Concat(Frames(Said(s, x.phase)))
  {
    assert "" + x.trace.pipe.buf == x.trace.pipe.buf;
  }

  /** A payload that comes next in a response that fits goes in whole. */
  lemma NextFits(s: Script, x: Session, payload: string)
    requires Filling(s, x) && Weight(s) <= MAX_BUFFER
    requires Said(s, x.phase) + [payload] <= Said(s, Marking)
    ensures Write(x.trace.pipe, Frame(payload)).1
  {
    BufferIsSaid(s, x);
    var said := Said(s, x.phase);
    assert Frames(said + [payload]) == Frames(said) + [Frame(payload)];
    ConcatOne(Frames(said), Frame(payload));
    FramesPrefix(said + [payload], Said(s, Marking));
    ConcatPrefix(Frames(said + [payload]), Frames(Said(s, Marking)));
  }

  /** The next write goes in, so nothing changes but the phase and what has been said. */
  lemma KeepsFilling(s: Script, x: Session)
    requires Filling(s, x) && !x.phase.Marking? && Weight(s) <= MAX_BUFFER
    requires !Produced(s, x).trace.pipe.aborted && !Produced(s, x).cut
    ensures Filling(s, Produced(s, x))
  {
    ProduceKeeps(s, x);
    ProduceConserves(s, x);
  }

  lemma FillToken(s: Script, x: Session)
    requires Filling(s, x) && x.phase.Token? && Weight(s) <= MAX_BUFFER
    ensures !Produced(s, x).trace.pipe.aborted && !Produced(s, x).cut
    ensures StepsLeft(s, Produced(s, x).phase) == StepsLeft(s, x.phase) - 1
  {
    var i := x.phase.i;
    if i < |s.tokens| {
      SaidGrows(s, x.phase);
      SaidGrows(s, Token(i + 1));
      SaidGrows(s, Failing);
      NextFits(s, x, s.tokens[i]);
    }
  }

  lemma FillOther(s: Script, x: Session)
    requires Filling(s, x) && (x.phase.Opening? || x.phase.Failing?) && Weight(s) <= MAX_BUFFER
    ensures !Produced(s, x).trace.pipe.aborted && !Produced(s, x).cut
    ensures StepsLeft(s, Produced(s, x).phase) == StepsLeft(s, x.phase) - 1
  {
    SaidGrows(s, x.phase);
    var payload := if x.phase.Opening? then s.role else s.error;
    if payload.Some? {
      NextFits(s, x, payload.value);
    }
  }

  lemma {:induction false} Fill(s: Script, x: Session)
    requires Filling(s, x) && Weight(s) <= MAX_BUFFER
    ensures var y := Play(s, x, Produces(StepsLeft(s, x.phase)));
            Filling(s, y) && y.phase.Marking?
    decreases StepsLeft(s, x.phase)
  {
    if !x.phase.Marking? {
      if x.phase.Token? {
        FillToken(s, x);
      } else {
        FillOther(s, x);
      }
      KeepsFilling(s, x);
      Fill(s, Produced(s, x));
      var n := StepsLeft(s, x.phase);
      assert Produces(n)[1..] == Produces(n - 1);
    }
  }

  lemma {:induction false} PlayAppend(s: Script, x: Session, a: seq<Turn>, b: seq<Turn>)
    ensures Play(s, x, a + b) == Play(s, Play(s, x, a), b)
    decreases a
  {
    if a == [] {
      assert a + b == b;
    } else {
      assert (a + b)[1..] == a[1..] + b;
      PlayAppend(s, Turned(s, x, a[0]), a[1..], b);
    }
  }

  /** If a whole response fits under the mark without its `[DONE]` and nobody reads, `[DONE]` is still
      inserted, and the pipe ends up aborted exactly when those last bytes do not fit. */
  lemma UnreadResponse(s: Script)
    requires Weight(s) <= MAX_BUFFER
    ensures var y := Play(s, OPEN, Produces(|s.tokens| + 4));
            && y.trace.inserted == Frames(Full(s))
            && (y.trace.pipe.aborted <==> Weight(s) + |Frame(DONE_MARK)| > MAX_BUFFER)
  {
    var n := |s.tokens| + 3;
    Fill(s, OPEN);
    var x := Play(s, OPEN, Produces(n));
    BufferIsSaid(s, x);
    assert Produces(n + 1) == Produces(n) + [Produce];
    PlayAppend(s, OPEN, Produces(n), [Produce]);
    assert [Produce][1..] == [];
    assert Play(s, x, [Produce]) == Produced(s, x);
    DoneWhenOpen(s, Produces(n));
  }
}
