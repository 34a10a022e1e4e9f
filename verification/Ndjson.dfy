/** The manager's side of the wire: the incremental parser `stream_parse_chunk` with its context,
    the whole-body parser `parse_ndjson`, and how the two and their inputs relate. */
module Ndjson {
  import opened Prelude
  import opened Lines
  import opened Json

  const INVALID := "Invalid NDJSON from runner"

  // ---- what the JSON library is asked ----

  predicate Contains(j: Value, key: string)
  {
    j.Object? && key in j.fields
  }

  /** `j.value(key, default)` for a boolean; `None` is the library's type error. */
  function BoolAt(j: Value, key: string, default: bool): Option<bool>
  {
    if !j.Object? then None
    else if key !in j.fields then Some(default)
    else if j.fields[key].Bool? then Some(j.fields[key].b)
    else None
  }

  function TextAt(j: Value, key: string, default: string): Option<string>
  {
    if !j.Object? then None
    else if key !in j.fields then Some(default)
    else if j.fields[key].Text? then Some(j.fields[key].s)
    else None
  }

  // ---- one line ----

  datatype Verdict = Continue | Abort | Throws

  /** The parse function, and the user's callback if there is one. The callback is an oracle: its
      verdict may depend on every token it has been called with, the last one included. */
  datatype Env = Env(parse: string -> Option<Value>, onToken: Option<seq<string> -> Verdict>)

  /** What a caller can observe of a stream: the fields of `StreamCtx` other than `leftover`, and
      the tokens the callback was called with. */
  datatype Obs = Obs(fullText: string, gotError: bool, errorMsg: string, gotDone: bool, calls: seq<string>)

  const START := Obs("", false, "", false, [])

  function Fail(o: Obs, message: string): Obs
  {
    o.(gotError := true, errorMsg := message)
  }

  function Deliver(env: Env, o: Obs, j: Value): (Obs, Verdict)
  {
    if Contains(j, "token") && env.onToken.Some? then
      match j.fields["token"]
      case Text(t) => (o.(calls := o.calls + [t]), env.onToken.value(o.calls + [t]))
      case _ => (o, Throws)
    else
      (o, Continue)
  }

  function FinishRecord(o: Obs, j: Value): (Obs, bool)
  {
    match BoolAt(j, "done", false)
    case None => (Fail(o, INVALID), false)
    case Some(false) => (o, true)
    case Some(true) =>
      match TextAt(j, "text", o.fullText)
      case None => (Fail(o.(gotDone := true), INVALID), false)
      case Some(text) => (o.(gotDone := true, fullText := text), true)
  }

  function ProcessLine(env: Env, o: Obs, line: string): (Obs, bool)
  {
    if line == "" then (o, true) else
      match env.parse(line)
      case None => (Fail(o, INVALID), false)
      case Some(j) =>
        if Contains(j, "error") then
          (Fail(o, if j.fields["error"].Text? then j.fields["error"].s else INVALID), false)
        else
          match Deliver(env, o, j)
          case (o', Continue) => FinishRecord(o', j)
          case (o', Abort) => (o', false)
          case (o', Throws) => (Fail(o', INVALID), false)
  }

  /** The reference meaning of a list of lines: one after the other, up to the first that stops. */
  function RunLines(env: Env, o: Obs, lines: seq<string>): (Obs, bool)
    decreases lines
  {
    if lines == [] then (o, true) else
      match ProcessLine(env, o, lines[0])
      case (o', true) => RunLines(env, o', lines[1..])
      case (o', false) => (o', false)
  }

  lemma {:induction false} RunLinesAppend(env: Env, o: Obs, a: seq<string>, b: seq<string>)
    ensures RunLines(env, o, a + b) ==
            if RunLines(env, o, a).1 then RunLines(env, RunLines(env, o, a).0, b) else RunLines(env, o, a)
    decreases a
  {
    if a == [] {
      assert a + b == b;
    } else {
      assert (a + b)[1..] == a[1..] + b;
      RunLinesAppend(env, ProcessLine(env, o, a[0]).0, a[1..], b);
    }
  }

  // ---- the incremental parser ----

  datatype Stream = Stream(leftover: string, obs: Obs)

  /** One chunk: only complete lines are processed; on a stop `leftover` is left untrimmed. */
  function Feed(env: Env, st: Stream, data: string): (Stream, bool)
  {
    var s := st.leftover + data;
    var (o, ok) := RunLines(env, st.obs, Split(s).0);
    (Stream(if ok then Split(s).1 else s, o), ok)
  }

  /** A transfer: the HTTP client stops feeding chunks at the first `false`. */
  function FeedAll(env: Env, st: Stream, chunks: seq<string>): (Stream, bool)
    decreases chunks
  {
    if chunks == [] then (st, true) else
      match Feed(env, st, chunks[0])
      case (st', true) => FeedAll(env, st', chunks[1..])
      case (st', false) => (st', false)
  }

  class StreamCtx {
    var leftover: string
    var fullText: string
    var gotError: bool
    var errorMsg: string
    var gotDone: bool
    var calls: seq<string>  // what the callback has been called with
    const env: Env

    constructor (env: Env)
      ensures this.env == env && State() == Stream("", START)
    {
      this.env := env;
      leftover, fullText, gotError, errorMsg, gotDone, calls := "", "", false, "", false, [];
    }

    function State(): Stream
      reads this
    {
      Stream(leftover, Observed())
    }

    function Observed(): Obs
      reads this
    {
      Obs(fullText, gotError, errorMsg, gotDone, calls)
    }

    method Invalid()
      modifies this
      ensures State() == Stream(old(leftover), Fail(old(Observed()), INVALID))
    {
      gotError, errorMsg := true, INVALID;
    }

    /** The body of the parser's loop, for one nonempty line. */
    method Record(line: string) returns (ok: bool)
      requires line != ""
      modifies this
      ensures leftover == old(leftover)
      ensures (Observed(), ok) == ProcessLine(env, old(Observed()), line)
    {
      var parsed := env.parse(line);
      if parsed.None? {
        Invalid();
        return false;
      }
      var j := parsed.value;
      if Contains(j, "error") {
        gotError := true;
        if j.fields["error"].Text? {
          errorMsg := j.fields["error"].s;
        } else {
          Invalid();
        }
        return false;
      }
      if Contains(j, "token") && env.onToken.Some? {
        if !j.fields["token"].Text? {
          Invalid();
          return false;
        }
        calls := calls + [j.fields["token"].s];
        var verdict := env.onToken.value(calls);
        if verdict == Abort {
          return false;
        } else if verdict == Throws {
          Invalid();
          return false;
        }
      }
      var done := BoolAt(j, "done", false);
      if done.None? {
        Invalid();
        return false;
      }
      if done.value {
        gotDone := true;
        var text := TextAt(j, "text", fullText);
        if text.None? {
          Invalid();
          return false;
        }
        fullText := text.value;
      }
      return true;
    }

    method Line(line: string) returns (ok: bool)
      modifies this
      ensures leftover == old(leftover)
      ensures (Observed(), ok) == ProcessLine(env, old(Observed()), line)
    {
      if line == "" {
        return true;
      }
      ok := Record(line);
    }

    /** The loop over the terminated lines; `pos` is where the first unterminated one starts. */
    method ParseLines() returns (ok: bool, pos: nat)
      modifies this
      ensures leftover == old(leftover)
      ensures (Observed(), ok) == RunLines(env, old(Observed()), Split(leftover).0)
      ensures ok ==> pos <= |leftover| && leftover[pos..] == Split(leftover).1
    {
      pos := 0;
      ghost var todo, tail := Split(leftover).0, Split(leftover).1;
      ghost var goal := RunLines(env, Observed(), todo);
      LinesFromIsSplit(leftover, 0);
      assert leftover[0..] == leftover;
      while true
        invariant pos <= |leftover| && leftover == old(leftover)
        invariant LinesFrom(leftover, pos) == (todo, tail)
        invariant RunLines(env, Observed(), todo) == goal
        decreases |leftover| - pos
      {
        var nl := FindChar(leftover, '\n', pos);
        if nl.None? {
          return true, pos;
        }
        var line := leftover[pos..nl.value];
        pos := nl.value + 1;
        RunOne(env, Observed(), line, todo[1..]);
        todo := todo[1..];
        var more := Line(line);
        if !more {
          return false, pos;
        }
      }
    }

    method ParseChunk(data: string) returns (ok: bool)
      modifies this
      ensures (State(), ok) == Feed(env, old(State()), data)
    {
      leftover := leftover + data;
      var pos;
      ok, pos := ParseLines();
      if ok {
        leftover := leftover[pos..];
      }
    }
  }

  lemma RunOne(env: Env, o: Obs, line: string, rest: seq<string>)
    ensures var (o', ok) := ProcessLine(env, o, line);
            RunLines(env, o, [line] + rest) == if ok then RunLines(env, o', rest) else (o', false)
  {}

  /** A chunk that is refused leaves everything received since the last accepted one in `leftover`. */
  lemma RefusedIsKept(env: Env, st: Stream, data: string)
    ensures !Feed(env, st, data).1 ==> Feed(env, st, data).0.leftover == st.leftover + data
    ensures Feed(env, st, data).1 ==> '\n' !in Feed(env, st, data).0.leftover
  {
    SplitUnbroken(st.leftover + data);
  }

  // ---- chunk invariance ----

  /** Feeding `a` and then `b`, when `a` is accepted, is feeding `a + b`. */
  lemma FeedTwice(env: Env, st: Stream, a: string, b: string)
    requires Feed(env, st, a).1
    ensures Feed(env, Feed(env, st, a).0, b).0.obs == Feed(env, st, a + b).0.obs
    ensures Feed(env, Feed(env, st, a).0, b).1 == Feed(env, st, a + b).1
    ensures Feed(env, st, a + b).1 ==> Feed(env, Feed(env, st, a).0, b) == Feed(env, st, a + b)
  {
    var s := st.leftover + a;
    assert st.leftover + (a + b) == s + b;
    SplitAppend(s, b);
    RunLinesAppend(env, st.obs, Split(s).0, Split(Split(s).1 + b).0);
  }

  /** A chunk that is refused is refused the same way with anything after it. */
  lemma FeedRefused(env: Env, st: Stream, a: string, b: string)
    requires !Feed(env, st, a).1
    ensures !Feed(env, st, a + b).1 && Feed(env, st, a + b).0.obs == Feed(env, st, a).0.obs
  {
    var s := st.leftover + a;
    assert st.leftover + (a + b) == s + b;
    SplitAppend(s, b);
    RunLinesAppend(env, st.obs, Split(s).0, Split(Split(s).1 + b).0);
  }

  /** However the bytes are cut into chunks, the verdict, the callback trace, the error and the text
      are those of one single chunk; and as long as the verdict is true so is `leftover`. */
  lemma {:induction false} ChunkInvariance(env: Env, st: Stream, chunks: seq<string>)
    requires '\n' !in st.leftover
    ensures FeedAll(env, st, chunks).1 == Feed(env, st, Concat(chunks)).1
    ensures FeedAll(env, st, chunks).0.obs == Feed(env, st, Concat(chunks)).0.obs
    ensures FeedAll(env, st, chunks).1 ==>
              FeedAll(env, st, chunks).0.leftover == Split(st.leftover + Concat(chunks)).1
    decreases chunks
  {
    if chunks == [] {
      assert st.leftover + "" == st.leftover;
      assert Join([]) + st.leftover == st.leftover;
      SplitUnique([], st.leftover);
    } else {
      var a, rest := chunks[0], chunks[1..];
      if Feed(env, st, a).1 {
        SplitUnbroken(st.leftover + a);
        ChunkInvariance(env, Feed(env, st, a).0, rest);
        FeedTwice(env, st, a, Concat(rest));
      } else {
        FeedRefused(env, st, a, Concat(rest));
      }
    }
  }

  /** From the start of a response: the observations are those of its terminated lines, in order. */
  lemma WholeBody(env: Env, chunks: seq<string>)
    ensures var (st, ok) := FeedAll(env, Stream("", START), chunks);
            var body := Concat(chunks);
            && (st.obs, ok) == RunLines(env, START, Split(body).0)
            && (ok ==> st.leftover == Split(body).1)
  {
    ChunkInvariance(env, Stream("", START), chunks);
    assert "" + Concat(chunks) == Concat(chunks);
  }

  // ---- the callback ----

  /** The same stream, with a callback that never stops it. */
  function Patient(env: Env): Env
  {
    if env.onToken.Some? then env.(onToken := Some((calls: seq<string>) => Continue)) else env
  }

  ghost predicate NeverStops(env: Env)
  {
    env.onToken.Some? ==> forall calls :: env.onToken.value(calls) == Continue
  }

  lemma {:induction false} CallsOnlyGrow(env: Env, o: Obs, lines: seq<string>)
    ensures o.calls <= RunLines(env, o, lines).0.calls
    decreases lines
  {
    if lines != [] && ProcessLine(env, o, lines[0]).1 {
      CallsOnlyGrow(env, ProcessLine(env, o, lines[0]).0, lines[1..]);
    }
  }

  lemma PatientDelivery(env: Env, o: Obs, j: Value)
    ensures var (o', v) := Deliver(env, o, j);
            && o.calls <= o'.calls && |o'.calls| <= |o.calls| + 1
            && o' == Deliver(Patient(env), o, j).0
            && (v == Continue ==> Deliver(Patient(env), o, j).1 == Continue)
            && (v == Continue && o.calls < o'.calls ==> env.onToken.Some? && env.onToken.value(o'.calls) == Continue)
  {}

  lemma FinishKeepsCalls(o: Obs, j: Value)
    ensures FinishRecord(o, j).0.calls == o.calls
  {}

  lemma PatientLine(env: Env, o: Obs, line: string)
    ensures var (o', ok) := ProcessLine(env, o, line);
            && o.calls <= o'.calls <= ProcessLine(Patient(env), o, line).0.calls
            && |o'.calls| <= |o.calls| + 1
            && (ok ==> ProcessLine(Patient(env), o, line) == (o', ok))
            && (ok && o.calls < o'.calls ==> env.onToken.Some? && env.onToken.value(o'.calls) == Continue)
  {
    if line != "" && env.parse(line).Some? {
      var j := env.parse(line).value;
      PatientDelivery(env, o, j);
      FinishKeepsCalls(Deliver(env, o, j).0, j);
    }
  }

  /** A callback that stops the stream sees a prefix of what a patient one sees, and is never called
      again after the call at which it stopped. */
  lemma {:induction false} StoppingCutsTheTrace(env: Env, o: Obs, lines: seq<string>)
    ensures RunLines(env, o, lines).0.calls <= RunLines(Patient(env), o, lines).0.calls
    ensures forall n | |o.calls| < n < |RunLines(env, o, lines).0.calls| && env.onToken.Some? ::
              env.onToken.value(RunLines(env, o, lines).0.calls[..n]) == Continue
    ensures RunLines(env, o, lines).1 && o.calls < RunLines(env, o, lines).0.calls ==>
              env.onToken.Some? && env.onToken.value(RunLines(env, o, lines).0.calls) == Continue
    decreases lines
  {
    if lines != [] {
      var (o1, ok) := ProcessLine(env, o, lines[0]);
      var (p1, pok) := ProcessLine(Patient(env), o, lines[0]);
      PatientLine(env, o, lines[0]);
      if ok {
        StoppingCutsTheTrace(env, o1, lines[1..]);
        CallsOnlyGrow(env, o1, lines[1..]);
        var calls := RunLines(env, o1, lines[1..]).0.calls;
        assert calls[..|o1.calls|] == o1.calls;
        assert calls == o1.calls || o1.calls < calls;
      } else if pok {
        CallsOnlyGrow(Patient(env), p1, lines[1..]);
      }
    }
  }

  /** The tokens of a list of lines: those of the lines that have one. */
  function TokensOf(parse: string -> Option<Value>, lines: seq<string>): seq<string>
  {
    if lines == [] then [] else TokenOf(parse, lines[0]) + TokensOf(parse, lines[1..])
  }

  function TokenOf(parse: string -> Option<Value>, line: string): seq<string>
  {
    if line == "" then [] else
      match parse(line)
      case Some(Object(fields)) =>
        if "token" in fields && fields["token"].Text? then [fields["token"].s] else []
      case _ => []
  }

  /** Of lines that are all accepted, the callback gets every token, whatever else its record holds, and
      without a callback nothing is called. */
  lemma {:induction false} CallsAreTokens(env: Env, o: Obs, lines: seq<string>)
    requires RunLines(env, o, lines).1
    ensures RunLines(env, o, lines).0.calls == o.calls + if env.onToken.Some? then TokensOf(env.parse, lines) else []
    decreases lines
  {
    if lines == [] {
      assert o.calls + [] == o.calls;
    } else {
      var o1 := ProcessLine(env, o, lines[0]).0;
      OneCall(env, o, lines[0]);
      CallsAreTokens(env, o1, lines[1..]);
      Assoc(o.calls, TokenOf(env.parse, lines[0]), TokensOf(env.parse, lines[1..]));
    }
  }

  lemma OneCall(env: Env, o: Obs, line: string)
    requires ProcessLine(env, o, line).1
    ensures ProcessLine(env, o, line).0.calls == o.calls + if env.onToken.Some? then TokenOf(env.parse, line) else []
  {
    assert o.calls + [] == o.calls;
  }

  // ---- the whole-body parser ----

  function BatchLine(parse: string -> Option<Value>, text: string, line: string): Outcome<string>
  {
    if line == "" then Success(text) else
      match parse(line)
      case None => Failure(ModelError, INVALID)
      case Some(j) =>
        if Contains(j, "error") then
          Failure(ModelError, if j.fields["error"].Text? then j.fields["error"].s else INVALID)
        else
          match BoolAt(j, "done", false)
          case None => Failure(ModelError, INVALID)
          case Some(false) => Success(text)
          case Some(true) =>
            match TextAt(j, "text", text)
            case None => Failure(ModelError, INVALID)
            case Some(t) => Success(t)
  }

  function BatchLines(parse: string -> Option<Value>, text: string, lines: seq<string>): Outcome<string>
    decreases lines
  {
    if lines == [] then Success(text) else
      match BatchLine(parse, text, lines[0])
      case Success(t) => BatchLines(parse, t, lines[1..])
      case Failure(c, m) => Failure(c, m)
  }

  function Onward(parse: string -> Option<Value>, r: Outcome<string>, lines: seq<string>): Outcome<string>
  {
    if r.Success? then BatchLines(parse, r.value, lines) else r
  }

  /** What `std::getline` yields: the terminated lines, and a last unterminated one unless it is empty. */
  function GetLines(body: string): seq<string>
  {
    Split(body).0 + if Split(body).1 == "" then [] else [Split(body).1]
  }

  function Batch(parse: string -> Option<Value>, body: string): Outcome<string>
  {
    BatchLines(parse, "", GetLines(body))
  }

  function GetLinesFrom(body: string, pos: nat): seq<string>
    requires pos <= |body|
  {
    LinesFrom(body, pos).0 + if LinesFrom(body, pos).1 == "" then [] else [LinesFrom(body, pos).1]
  }

  /** One `std::getline` at `pos`. */
  lemma GetLineFrom(s: string, pos: nat)
    requires pos < |s|
    ensures var nl := FindChar(s, '\n', pos);
            GetLinesFrom(s, pos) == if nl.Some? then [s[pos..nl.value]] + GetLinesFrom(s, nl.value + 1)
                                    else [s[pos..]] + GetLinesFrom(s, |s|)
  {}

  lemma BatchOne(parse: string -> Option<Value>, text: string, line: string, rest: seq<string>)
    ensures BatchLines(parse, text, [line] + rest) == Onward(parse, BatchLine(parse, text, line), rest)
  {}

  /** The body of the loop, for one line. */
  method ReadLine(parse: string -> Option<Value>, text: string, line: string) returns (r: Outcome<string>)
    ensures r == BatchLine(parse, text, line)
  {
    if line == "" {
      return Success(text);
    }
    var parsed := parse(line);
    if parsed.None? {
      return Failure(ModelError, INVALID);
    }
    var j := parsed.value;
    if Contains(j, "error") {
      return Failure(ModelError, if j.fields["error"].Text? then j.fields["error"].s else INVALID);
    }
    var done := BoolAt(j, "done", false);
    if done.None? {
      return Failure(ModelError, INVALID);
    }
    if done.value {
      var t := TextAt(j, "text", text);
      return if t.None? then Failure(ModelError, INVALID) else Success(t.value);
    }
    return Success(text);
  }

  /** Where the line at `pos` ends, and where the next one starts. */
  function LineEnd(body: string, pos: nat): (r: (nat, nat))
    requires pos < |body|
    ensures pos <= r.0 <= |body| && pos < r.1 <= |body|
  {
    match FindChar(body, '\n', pos)
    case None => (|body|, |body|)
    case Some(nl) => (nl, nl + 1)
  }

  lemma BatchRound(parse: string -> Option<Value>, body: string, pos: nat, text: string)
    requires pos < |body|
    ensures var (end, next) := LineEnd(body, pos);
            BatchLines(parse, text, GetLinesFrom(body, pos)) ==
            Onward(parse, BatchLine(parse, text, body[pos..end]), GetLinesFrom(body, next))
  {
    var (end, next) := LineEnd(body, pos);
    GetLineFrom(body, pos);
    assert body[pos..] == body[pos..|body|];
    BatchOne(parse, text, body[pos..end], GetLinesFrom(body, next));
  }

  method ParseNdjson(parse: string -> Option<Value>, body: string) returns (r: Outcome<string>)
    ensures r == Batch(parse, body)
  {
    var text := "";
    var pos := 0;
    LinesFromIsSplit(body, 0);
    assert body[0..] == body;
    while pos < |body|
      invariant pos <= |body|
      invariant BatchLines(parse, text, GetLinesFrom(body, pos)) == Batch(parse, body)
      decreases |body| - pos
    {
      BatchRound(parse, body, pos, text);
      var (end, next) := LineEnd(body, pos);
      var line := body[pos..end];
      pos := next;
      var record := ReadLine(parse, text, line);
      if record.Failure? {
        return record;
      }
      text := record.value;
    }
    return Success(text);
  }

  // ---- what a record does ----

  /** The message a line fails with: the runner's own if it is a text, and otherwise the fixed one. */
  function Complaint(parse: string -> Option<Value>, line: string): string
  {
    match parse(line)
    case Some(Object(fields)) =>
      if "error" in fields && fields["error"].Text? then fields["error"].s else "Invalid NDJSON from runner"
    case _ => "Invalid NDJSON from runner"
  }

  /** The record that sets the text: no error, `done`, and that text. */
  predicate Sets(parse: string -> Option<Value>, line: string, text: string)
  {
    line != "" && parse(line).Some? &&
    var j := parse(line).value;
    && j.Object? && "error" !in j.fields
    && "done" in j.fields && j.fields["done"] == Bool(true)
    && "text" in j.fields && j.fields["text"] == Text(text)
  }

  /** For the batch parser a line is one of three: it leaves the text as it is, it sets the text, or it
      fails with its complaint. */
  lemma LineMeans(parse: string -> Option<Value>, before: string, after: string, line: string)
    ensures BatchLine(parse, before, line) == Success(after) <==>
            (Harmless(parse, before, line) && after == before) || Sets(parse, line, after)
    ensures BatchLine(parse, before, line).Failure? ==>
            BatchLine(parse, before, line) == Failure(ModelError, Complaint(parse, line))
  {}

  /** A line the JSON library cannot read, or a record with an error. */
  predicate Complains(parse: string -> Option<Value>, line: string)
  {
    line != "" &&
    (parse(line).None? || (parse(line).value.Object? && "error" in parse(line).value.fields))
  }

  lemma StopsAtError(env: Env, o: Obs, line: string)
    requires Complains(env.parse, line)
    ensures ProcessLine(env, o, line) == (Fail(o, Complaint(env.parse, line)), false)
  {}

  lemma RunsToError(env: Env, lines: seq<string>, line: string, rest: seq<string>)
    requires RunLines(env, START, lines).1 && Complains(env.parse, line)
    ensures RunLines(env, START, lines + ([line] + rest)) ==
            (Fail(RunLines(env, START, lines).0, Complaint(env.parse, line)), false)
  {
    var o := RunLines(env, START, lines).0;
    RunLinesAppend(env, START, lines, [line] + rest);
    StopsAtError(env, o, line);
    RunOne(env, o, line, rest);
  }

  lemma OneBody(env: Env, lines: seq<string>)
    requires Unbroken(lines)
    ensures FeedAll(env, Stream("", START), [Join(lines)]).0.obs == RunLines(env, START, lines).0
  {
    var body := Join(lines);
    assert Concat([body]) == body + Concat([body][1..]) == body;
    assert body + "" == body;
    SplitUnique(lines, "");
    WholeBody(env, [body]);
  }

  /** The stream's call: such a line, after lines that were accepted, ends the stream, and the call fails
      with the runner's message, or the fixed one if that is not a text. What comes after it does not
      matter. */
  lemma ErrorIsReported(env: Env, lines: seq<string>, line: string, rest: seq<string>, e: Endpoint)
    requires RunLines(env, START, lines).1 && Complains(env.parse, line)
    requires Unbroken(lines + ([line] + rest))
    ensures var o := FeedAll(env, Stream("", START), [Join(lines + ([line] + rest))]).0.obs;
            && o.calls == RunLines(env, START, lines).0.calls
            && CallResult(e, Response(200), o) == Failure(ModelError, Complaint(env.parse, line))
  {
    OneBody(env, lines + ([line] + rest));
    RunsToError(env, lines, line, rest);
  }

  // ---- when the two parsers agree ----

  /** The stream's result, once the transfer itself has succeeded. */
  function StreamResult(o: Obs): Outcome<string>
  {
    if o.gotError then Failure(ModelError, o.errorMsg) else Success(o.fullText)
  }

  /** A line with a `token` that is not a string: the stream parser reports it, the batch parser does not look. */
  predicate BadToken(env: Env, line: string)
  {
    && line != ""
    && env.onToken.Some?
    && env.parse(line).Some?
    && var j := env.parse(line).value;
       !Contains(j, "error") && Contains(j, "token") && !j.fields["token"].Text?
  }

  /** Whether the batch parser gets as far as such a line. */
  predicate MeetsBadToken(env: Env, text: string, lines: seq<string>)
    decreases lines
  {
    lines != [] &&
    (BadToken(env, lines[0])
     || match BatchLine(env.parse, text, lines[0])
        case Success(t) => MeetsBadToken(env, t, lines[1..])
        case Failure(_, _) => false)
  }

  lemma {:induction false} LinesAgree(env: Env, o: Obs, lines: seq<string>)
    requires NeverStops(env) && !o.gotError
    ensures var (o', ok) := RunLines(env, o, lines);
            && ok == !o'.gotError
            && StreamResult(o') == if MeetsBadToken(env, o.fullText, lines) then Failure(ModelError, INVALID)
                                   else BatchLines(env.parse, o.fullText, lines)
    decreases lines
  {
    if lines != [] {
      var (o1, ok) := ProcessLine(env, o, lines[0]);
      if ok {
        LinesAgree(env, o1, lines[1..]);
      }
    }
  }

  lemma {:induction false} BatchAppend(parse: string -> Option<Value>, text: string, a: seq<string>, b: seq<string>)
    ensures BatchLines(parse, text, a + b) == Onward(parse, BatchLines(parse, text, a), b)
    decreases a
  {
    if a == [] {
      assert a + b == b;
    } else {
      assert (a + b)[1..] == a[1..] + b;
      match BatchLine(parse, text, a[0])
      case Success(t) => BatchAppend(parse, t, a[1..], b);
      case Failure(_, _) =>
    }
  }

  /** What the stream reports of any body, in any chunks: the batch result of the terminated lines,
      unless a token that is not a string is met first. */
  lemma StreamMeansBatch(env: Env, chunks: seq<string>)
    requires NeverStops(env)
    ensures var lines := Split(Concat(chunks)).0;
            StreamResult(FeedAll(env, Stream("", START), chunks).0.obs) ==
            if MeetsBadToken(env, "", lines) then Failure(ModelError, INVALID) else BatchLines(env.parse, "", lines)
  {
    WholeBody(env, chunks);
    LinesAgree(env, START, Split(Concat(chunks)).0);
  }

  /** The whole-body parser, over the terminated lines and then what follows the last newline. */
  lemma BatchOfSplit(parse: string -> Option<Value>, body: string)
    ensures Batch(parse, body) ==
            (var before := BatchLines(parse, "", Split(body).0);
             if before.Success? then BatchLine(parse, before.value, Split(body).1) else before)
  {
    var (lines, tail) := Split(body);
    var before := BatchLines(parse, "", lines);
    if tail == "" {
      assert lines + [] == lines;
    } else {
      BatchAppend(parse, "", lines, [tail]);
      if before.Success? {
        BatchOne(parse, before.value, tail, []);
        assert [tail] + [] == [tail];
      }
    }
  }

  /** A last line that would not change the text: none, or a record without an error that is not the
      final one, or is it and has no text or the same text. */
  predicate Harmless(parse: string -> Option<Value>, text: string, line: string)
  {
    line == "" ||
    (parse(line).Some? &&
     var j := parse(line).value;
     && j.Object? && "error" !in j.fields
     && ("done" in j.fields ==> j.fields["done"].Bool?)
     && ("done" in j.fields && j.fields["done"] == Bool(true) && "text" in j.fields ==> j.fields["text"] == Text(text)))
  }

  lemma HarmlessMeansUnchanged(parse: string -> Option<Value>, text: string, line: string)
    ensures Harmless(parse, text, line) <==> BatchLine(parse, text, line) == Success(text)
  {}

  /** For every body and every chunking, exactly when the two parsers report the same. If a token that
      is not a string is met first, when the body fails in batch with the same message; otherwise, when
      the terminated lines fail, or the unterminated last line would not change their text. */
  lemma AgreementExactly(env: Env, chunks: seq<string>)
    requires NeverStops(env)
    ensures var body := Concat(chunks);
            var before := BatchLines(env.parse, "", Split(body).0);
            StreamResult(FeedAll(env, Stream("", START), chunks).0.obs) == Batch(env.parse, body) <==>
            if MeetsBadToken(env, "", Split(body).0) then Batch(env.parse, body) == Failure(ModelError, INVALID)
            else before.Success? ==> Harmless(env.parse, before.value, Split(body).1)
  {
    var body := Concat(chunks);
    StreamMeansBatch(env, chunks);
    BatchOfSplit(env.parse, body);
    var before := BatchLines(env.parse, "", Split(body).0);
    if before.Success? {
      HarmlessMeansUnchanged(env.parse, before.value, Split(body).1);
    }
  }

  /** Newline-terminated bodies: the parsers agree exactly when no such token is met before the batch
      parser is done, or the batch parser fails with the same message. */
  lemma TerminatedAgreement(env: Env, chunks: seq<string>)
    requires NeverStops(env) && Split(Concat(chunks)).1 == ""
    ensures StreamResult(FeedAll(env, Stream("", START), chunks).0.obs) == Batch(env.parse, Concat(chunks)) <==>
            !MeetsBadToken(env, "", Split(Concat(chunks)).0)
            || Batch(env.parse, Concat(chunks)) == Failure(ModelError, INVALID)
  {
    AgreementExactly(env, chunks);
  }

  /** Newline-terminated bodies whose tokens are strings: success together, with the same text, and
      failure together, with the same message. */
  lemma BatchStreamAgreement(env: Env, chunks: seq<string>)
    requires NeverStops(env)
    requires Split(Concat(chunks)).1 == ""
    requires forall line | line in Split(Concat(chunks)).0 :: !BadToken(env, line)
    ensures StreamResult(FeedAll(env, Stream("", START), chunks).0.obs) == Batch(env.parse, Concat(chunks))
  {
    AgreementExactly(env, chunks);
    NoBadTokenMet(env, "", Split(Concat(chunks)).0);
  }

  lemma {:induction false} NoBadTokenMet(env: Env, text: string, lines: seq<string>)
    requires forall line | line in lines :: !BadToken(env, line)
    ensures !MeetsBadToken(env, text, lines)
    decreases lines
  {
    if lines != [] {
      match BatchLine(env.parse, text, lines[0])
      case Success(t) => NoBadTokenMet(env, t, lines[1..]);
      case Failure(_, _) =>
    }
  }

  /** With an unterminated last line: when the lines before it fail, or it is harmless. */
  lemma UnterminatedAgreement(env: Env, chunks: seq<string>)
    requires NeverStops(env)
    requires forall line | line in Split(Concat(chunks)).0 :: !BadToken(env, line)
    ensures var before := BatchLines(env.parse, "", Split(Concat(chunks)).0);
            StreamResult(FeedAll(env, Stream("", START), chunks).0.obs) == Batch(env.parse, Concat(chunks)) <==>
            (before.Success? ==> Harmless(env.parse, before.value, Split(Concat(chunks)).1))
  {
    AgreementExactly(env, chunks);
    NoBadTokenMet(env, "", Split(Concat(chunks)).0);
  }

  /** A reader of the one record `{"token":1}`. */
  function ReadNumberToken(line: string): Option<Value>
  {
    if line == "{\"token\":1}" then Some(Object(map["token" := Number])) else None
  }

  /** On that record, terminated, the parsers differ: an empty text in batch, an error in the stream. */
  lemma NumberTokenDivides()
    ensures var env := Env(ReadNumberToken, Some((calls: seq<string>) => Continue));
            var body := "{\"token\":1}\n";
            && Batch(ReadNumberToken, body) == Success("")
            && StreamResult(FeedAll(env, Stream("", START), [body]).0.obs) == Failure(ModelError, INVALID)
  {
    var env, line := Env(ReadNumberToken, Some((calls: seq<string>) => Continue)), "{\"token\":1}";
    var body := "{\"token\":1}\n";
    assert Concat([body]) == body + Concat([body][1..]) == body;
    assert Join([line]) == line + "\n" + Join([line][1..]) == body;
    assert body + "" == body;
    SplitUnique([line], "");
    StreamMeansBatch(env, [body]);
    BatchOfSplit(ReadNumberToken, body);
    BatchOne(ReadNumberToken, "", line, []);
    assert [line] + [] == [line];
    assert BadToken(env, line);
  }

  /** An unterminated `done` record: the batch parser returns its text, the stream parser nothing. */
  lemma UnterminatedDoneIsLost(text: string)
    requires text != ""
    ensures var env := Env(ReadRecord, None);
            && Batch(ReadRecord, DoneRecord(text)) == Success(text)
            && StreamResult(FeedAll(env, Stream("", START), [DoneRecord(text)]).0.obs) == Success("")
  {
    var env, body := Env(ReadRecord, None), DoneRecord(text);
    ReadRecordInverts(text);
    RecordsStayOnOneLine(text);
    assert Concat([body]) == body;
    assert Join([]) + body == body;
    SplitUnique([], body);
    StreamMeansBatch(env, [body]);
    assert GetLines(body) == [body];
    assert BatchLine(ReadRecord, "", body) == Success(text);
    assert BatchLines(ReadRecord, "", [body]) == Success(text);
  }

  // ---- the proxy call ----

  function Refusal(e: Endpoint): string
  {
    match e
    case Completion => "Runner request failed: HTTP "
    case Chat => "Runner chat failed: HTTP "
  }

  /** What `stream_completion` and `stream_chat` return, given how the transfer ended: no response, or
      a response with a status. The transfer's own failure hides the runner's error. */
  datatype Transfer = NoResponse | Response(status: int)

  function CallResult(e: Endpoint, t: Transfer, o: Obs): (r: Outcome<string>)
    ensures r.Success? <==> t == Response(200) && !o.gotError
    ensures r.Success? ==> r.value == o.fullText
    ensures r.Failure? && t == Response(200) ==> r == Failure(ModelError, o.errorMsg)
    ensures r.Failure? && t != Response(200) ==> r.code == NetworkError
    ensures t.NoResponse? ==> r == Failure(NetworkError, "Runner connection failed")
    ensures t.Response? && t.status != 200 && e == Completion ==>
              r.message == "Runner request failed: HTTP " + Signed(t.status)
    ensures t.Response? && t.status != 200 && e == Chat ==> r.message == "Runner chat failed: HTTP " + Signed(t.status)
  {
    if t.NoResponse? then Failure(NetworkError, "Runner connection failed")
    else if t.status != 200 then Failure(NetworkError, Refusal(e) + Signed(t.status))
    else StreamResult(o)
  }
}
