/** End to end: from the runner's token loop, over any interleaving of its threads and any chunking of
    the bytes, to the callback of the manager's streaming call. */
module Fidelity {
  import opened Prelude
  import opened Lines
  import opened Json
  import opened Ndjson
  import opened TokenStreams
  import Events
  import Sse

  /** The records a runner sends for `tokens`, closed by a final record if there is one. */
  function Transcript(tokens: seq<string>, final: Option<string>): seq<string>
  {
    Records(tokens) + if final.Some? then [DoneRecord(final.value)] else []
  }

  lemma TranscriptUnbroken(tokens: seq<string>, final: Option<string>)
    ensures Unbroken(Transcript(tokens, final))
  {
    forall i | 0 <= i < |tokens| ensures '\n' !in TokenRecord(tokens[i]) {
      RecordsStayOnOneLine(tokens[i]);
    }
    if final.Some? {
      RecordsStayOnOneLine(final.value);
    }
  }

  // ---- reading a transcript ----

  /** What the callback alone makes of a list of tokens. */
  function CallAll(env: Env, o: Obs, tokens: seq<string>): (Obs, bool)
    requires env.onToken.Some?
    decreases tokens
  {
    if tokens == [] then (o, true) else
      var o' := o.(calls := o.calls + [tokens[0]]);
      match env.onToken.value(o'.calls)
      case Continue => CallAll(env, o', tokens[1..])
      case Abort => (o', false)
      case Throws => (Fail(o', INVALID), false)
  }

  /** The callback's last verdict was not to go on. */
  predicate Stopped(env: Env, o: Obs)
    requires env.onToken.Some?
  {
    o.calls != [] && env.onToken.value(o.calls) != Continue
  }

  /** `lines` are the records of `tokens`, as the JSON library reads them. */
  ghost predicate Reads(parse: string -> Option<Value>, lines: seq<string>, tokens: seq<string>)
  {
    |lines| == |tokens| &&
    forall i | 0 <= i < |lines| ::
      lines[i] != "" && parse(lines[i]) == Some(Object(map["token" := Text(tokens[i])]))
  }

  lemma {:induction false} LinesAreCalls(env: Env, o: Obs, lines: seq<string>, tokens: seq<string>)
    requires env.onToken.Some? && Reads(env.parse, lines, tokens)
    ensures RunLines(env, o, lines) == CallAll(env, o, tokens)
    decreases tokens
  {
    if tokens != [] {
      LinesAreCalls(env, ProcessLine(env, o, lines[0]).0, lines[1..], tokens[1..]);
    }
  }

  /** Tokens in order, none twice, none skipped; an error only if the callback itself threw. */
  lemma {:induction false} CallsArePrefix(env: Env, o: Obs, tokens: seq<string>)
    requires env.onToken.Some? && !o.gotError
    ensures var (o', ok) := CallAll(env, o, tokens);
            && o.calls <= o'.calls <= o.calls + tokens
            && o'.fullText == o.fullText && o'.gotDone == o.gotDone
            && (o'.gotError ==> o.calls < o'.calls && env.onToken.value(o'.calls) == Throws)
            && (ok ==> o' == o.(calls := o.calls + tokens))
            && (!ok ==> Stopped(env, o'))
    decreases tokens
  {
    assert o.calls + [] == o.calls;
    if tokens != [] {
      assert o.calls + tokens == (o.calls + [tokens[0]]) + tokens[1..];
      CallsArePrefix(env, o.(calls := o.calls + [tokens[0]]), tokens[1..]);
    }
  }

  lemma RecordsRead(parse: string -> Option<Value>, tokens: seq<string>)
    requires Inverts(parse) && AllUtf8(tokens)
    ensures Reads(parse, Records(tokens), tokens)
  {}

  lemma DoneLineResult(env: Env, o: Obs, text: string)
    requires Inverts(env.parse) && Utf8(text)
    ensures RunLines(env, o, [DoneRecord(text)]) == (o.(gotDone := true, fullText := text), true)
  {
    RecordsStayOnOneLine(text);
    assert [DoneRecord(text)][1..] == [];
  }

  /** What any callback sees of any beginning of a transcript. */
  lemma ReplayTranscript(env: Env, tokens: seq<string>, final: Option<string>, lines: seq<string>)
    requires Inverts(env.parse) && env.onToken.Some?
    requires AllUtf8(tokens) && (final.Some? ==> Utf8(final.value))
    requires lines <= Transcript(tokens, final)
    ensures var o := RunLines(env, START, lines).0;
            && o.calls <= tokens
            && (o.gotDone ==> final.Some? && o.calls == tokens && o.fullText == final.value && !o.gotError)
            && (o.gotError ==> o.calls != [] && env.onToken.value(o.calls) == Throws)
    ensures lines == Transcript(tokens, final) && final.Some? ==>
              RunLines(env, START, lines) == (Obs(final.value, false, "", true, tokens), true)
              || Stopped(env, RunLines(env, START, lines).0)
  {
    var n := if |lines| <= |tokens| then |lines| else |tokens|;
    var sent := tokens[..n];
    assert [] + sent == sent;
    assert Records(sent) == lines[..n];
    RecordsRead(env.parse, sent);
    LinesAreCalls(env, START, Records(sent), sent);
    CallsArePrefix(env, START, sent);
    if |lines| > n {
      assert lines[n..] == [DoneRecord(final.value)] && lines == Records(sent) + lines[n..];
      RunLinesAppend(env, START, Records(sent), lines[n..]);
      DoneLineResult(env, RunLines(env, START, Records(sent)).0, final.value);
    } else {
      assert lines[..n] == lines;
    }
  }

  /** The final record, if it has been handed to the sink. */
  function Final(job: Job, s: System): Option<string>
  {
    if s.ended then Some(FinalText(job)) else None
  }

  lemma EndedWire(s: System, text: string)
    ensures Join(Transcript(s.written, Some(text))) == Join(Records(s.written)) + DoneLine(text)
  {
    var last := [DoneRecord(text)];
    JoinAppend(Records(s.written), last);
    assert Join(last) == DoneLine(text) + Join(last[1..]) == DoneLine(text);
  }

  lemma OpenWire(tokens: seq<string>, more: seq<string>)
    requires |more| <= 1
    ensures Join(Transcript(tokens + more, None)) ==
            Join(Records(tokens)) + if more == [] then "" else TokenLine(more[0])
  {
    var last := Records(more);
    assert Transcript(tokens + more, None) == Records(tokens) + last;
    JoinAppend(Records(tokens), last);
    if more != [] {
      assert Join(last) == TokenLine(more[0]) + Join(last[1..]) == TokenLine(more[0]);
    }
  }

  /** In every reachable state the bytes sent are a beginning of the transcript of the tokens taken
      off the queue, all of which can be dumped. */
  lemma WireIsTranscript(job: Job, s: System)
    requires Inv(job, s)
    ensures Wire(s) <= Join(Transcript(s.written + InFlight(s), Final(job, s)))
    ensures s.ended && !s.severed ==> Wire(s) == Join(Transcript(s.written, Final(job, s)))
    ensures AllUtf8(s.written + InFlight(s)) && (s.ended ==> Utf8(FinalText(job)))
  {
    if s.ended {
      assert s.written + InFlight(s) == s.written;
      EndedWire(s, FinalText(job));
      PrefixOfSum(Join(Records(s.written)), s.tail, DoneLine(FinalText(job)));
    } else {
      var more := InFlight(s);
      OpenWire(s.written, more);
      PrefixOfSum(Join(Records(s.written)), s.tail, if more == [] then "" else TokenLine(more[0]));
    }
  }

  lemma PrefixOfSum(a: string, b: string, c: string)
    requires b <= c
    ensures a + b <= a + c
  {}

  /** Safety, with no assumption on the run: whatever has been received of what has been sent, in any
      chunks and with any callback, the callback has been called with a prefix of the generated
      pieces; `got_done` means that the final record was sent, the callback was called with all of
      them, and the text is the generator's. */
  lemma PrefixSafety(job: Job, steps: seq<Step>, env: Env, chunks: seq<string>)
    requires Exec(job, steps).Some?
    requires Concat(chunks) <= Wire(Exec(job, steps).value)
    requires Inverts(env.parse) && env.onToken.Some?
    ensures var o := FeedAll(env, Stream("", START), chunks).0.obs;
            && o.calls <= Generated(job)
            && (o.gotDone ==> Exec(job, steps).value.ended && o.calls == Generated(job) && o.fullText == FinalText(job))
            && (o.gotError ==> o.calls != [] && env.onToken.value(o.calls) == Throws)
  {
    var s, body := Exec(job, steps).value, Concat(chunks);
    var tokens := s.written + InFlight(s);
    ReachableInv(job, steps);
    WireIsTranscript(job, s);
    TranscriptUnbroken(tokens, Final(job, s));
    PrefixLines(body, Transcript(tokens, Final(job, s)));
    ReplayTranscript(env, tokens, Final(job, s), Split(body).0);
    WholeBody(env, chunks);
    TokensAreGenerated(job, s);
  }

  lemma TokensAreGenerated(job: Job, s: System)
    requires Inv(job, s)
    ensures s.written + InFlight(s) <= Generated(job)
  {
    var k := |s.written + InFlight(s)|;
    assert s.pushed[..k] == s.written + InFlight(s);
    if s.gen.Looping? {
      assert s.generated <= s.generated + Pieces(job, s.gen.i);
    }
  }

  lemma CompleteWire(job: Job, steps: seq<Step>)
    requires Exec(job, steps).Some? && Terminal(Exec(job, steps).value) && !Exec(job, steps).value.severed
    requires AllUtf8(Generated(job)) && Utf8(FinalText(job))
    ensures Wire(Exec(job, steps).value) == Join(Transcript(Generated(job), Some(FinalText(job))))
  {
    ReachableInv(job, steps);
    CompletionNeedsUtf8(job, steps);
    WireIsTranscript(job, Exec(job, steps).value);
  }

  /** In every finished run whose connection held, if everything generated is valid UTF-8, then for every
      chunking the callback stops the stream, or everything is delivered. */
  lemma DeliveredOrStopped(job: Job, steps: seq<Step>, env: Env, chunks: seq<string>)
    requires Exec(job, steps).Some? && Terminal(Exec(job, steps).value) && !Exec(job, steps).value.severed
    requires AllUtf8(Generated(job)) && Utf8(FinalText(job))
    requires Concat(chunks) == Wire(Exec(job, steps).value)
    requires Inverts(env.parse) && env.onToken.Some?
    ensures FeedAll(env, Stream("", START), chunks) ==
            (Stream("", Obs(FinalText(job), false, "", true, Generated(job))), true)
            || Stopped(env, FeedAll(env, Stream("", START), chunks).0.obs)
  {
    var lines := Transcript(Generated(job), Some(FinalText(job)));
    CompleteWire(job, steps);
    TranscriptUnbroken(Generated(job), Some(FinalText(job)));
    assert Join(lines) + "" == Join(lines);
    SplitUnique(lines, "");
    WholeBody(env, chunks);
    ReplayTranscript(env, Generated(job), Some(FinalText(job)), lines);
  }

  /** Fidelity: a callback that never stops the stream is then called with exactly the generated pieces,
      once each and in order, and the call returns the generator's text. */
  lemma EndToEnd(job: Job, steps: seq<Step>, env: Env, chunks: seq<string>)
    requires Exec(job, steps).Some? && Terminal(Exec(job, steps).value) && !Exec(job, steps).value.severed
    requires AllUtf8(Generated(job)) && Utf8(FinalText(job))
    requires Concat(chunks) == Wire(Exec(job, steps).value)
    requires Inverts(env.parse) && env.onToken.Some? && NeverStops(env)
    ensures FeedAll(env, Stream("", START), chunks) ==
            (Stream("", Obs(FinalText(job), false, "", true, Generated(job))), true)
    ensures var o := FeedAll(env, Stream("", START), chunks).0.obs;
            forall e :: CallResult(e, Response(200), o) == Success(FinalText(job))
  {
    DeliveredOrStopped(job, steps, env, chunks);
  }

  /** When the generator throws nothing, the outcome of a finished run whose connection held is decided
      by its pieces: the call gets them all, and their concatenation as the text, if and only if each
      piece by itself is valid UTF-8. */
  lemma PiecesDecideDelivery(job: Job, steps: seq<Step>, env: Env, chunks: seq<string>)
    requires Exec(job, steps).Some? && Terminal(Exec(job, steps).value) && !Exec(job, steps).value.severed
    requires ExceptionOf(job).None?
    requires Concat(chunks) == Wire(Exec(job, steps).value)
    requires Inverts(env.parse) && env.onToken.Some? && NeverStops(env)
    ensures var o := FeedAll(env, Stream("", START), chunks).0.obs;
            && (o.gotDone <==> AllUtf8(Generated(job)))
            && (o.gotDone ==> o == Obs(Concat(Generated(job)), false, "", true, Generated(job)))
  {
    PiecesDecide(job);
    FinalTextIsConcat(job);
    CompletionNeedsUtf8(job, steps);
    PrefixSafety(job, steps, env, chunks);
    if AllUtf8(Generated(job)) {
      EndToEnd(job, steps, env, chunks);
    }
  }

  /** The same with the records' own reader in place of the assumption on the JSON library. */
  lemma EndToEndWithReader(job: Job, steps: seq<Step>, chunks: seq<string>)
    requires Exec(job, steps).Some? && Terminal(Exec(job, steps).value) && !Exec(job, steps).value.severed
    requires AllUtf8(Generated(job)) && Utf8(FinalText(job))
    requires Concat(chunks) == Wire(Exec(job, steps).value)
    ensures var env := Env(ReadRecord, Some((calls: seq<string>) => Continue));
            FeedAll(env, Stream("", START), chunks).0.obs == Obs(FinalText(job), false, "", true, Generated(job))
  {
    forall t: string ensures ReadRecord(TokenRecord(t)) == Some(Object(map["token" := Text(t)]))
                          && ReadRecord(DoneRecord(t)) == Some(Object(map["done" := Bool(true), "text" := Text(t)])) {
      ReadRecordInverts(t);
    }
    EndToEnd(job, steps, Env(ReadRecord, Some((calls: seq<string>) => Continue)), chunks);
  }

  // ---- an exception in the generator ----

  /** One piece, and then an exception. */
  function HalfwaySamples(message: string): nat -> Sample
  {
    (i: nat) => if i == 0 then Sampled("hi", true) else SampleRaises(message)
  }

  lemma HalfwayGenerates(message: string)
    ensures var job := Job(2, Ready, HalfwaySamples(message));
            Generated(job) == ["hi"] && ExceptionOf(job) == Some(message) && FinalText(job) == message
  {
    var job := Job(2, Ready, HalfwaySamples(message));
    assert Pieces(job, 1) == [];
    assert Pieces(job, 0) == ["hi"] + Pieces(job, 1);
    assert Raised(job, 0) == Raised(job, 1) == Some(message);
  }

  /** The call does not tell an exception from an answer: for this job, in every finished run whose
      connection held and every chunking, it succeeds with the exception's message as its text. */
  lemma ExceptionReportedAsText(message: string, steps: seq<Step>, env: Env, chunks: seq<string>)
    requires Utf8(message)
    requires var run := Exec(Job(2, Ready, HalfwaySamples(message)), steps);
             run.Some? && Terminal(run.value) && !run.value.severed && Concat(chunks) == Wire(run.value)
    requires Inverts(env.parse) && env.onToken.Some? && NeverStops(env)
    ensures var o := FeedAll(env, Stream("", START), chunks).0.obs;
            o.calls == ["hi"] && forall e :: CallResult(e, Response(200), o) == Success(message)
  {
    HalfwayGenerates(message);
    assert Utf8("hi"[1..][1..]) && Utf8("hi"[1..]);
    EndToEnd(Job(2, Ready, HalfwaySamples(message)), steps, env, chunks);
  }

  /** There is such a run. */
  lemma ExceptionRunExists(message: string) returns (steps: seq<Step>)
    requires Utf8(message)
    ensures var run := Exec(Job(2, Ready, HalfwaySamples(message)), steps);
            run.Some? && Terminal(run.value) && !run.value.severed
  {
    var job := Job(2, Ready, HalfwaySamples(message));
    var s, run := GeneratorRuns(job, message);
    assert Utf8("hi"[1..][1..]) && Utf8("hi"[1..]);
    steps := ProviderRuns(job, s, run);
  }

  lemma GeneratorRuns(job: Job, message: string) returns (s: System, steps: seq<Step>)
    requires job == Job(2, Ready, HalfwaySamples(message))
    ensures Exec(job, steps) == Some(s) && s.gen.Finished? && s.prov.Calling? && !s.severed
    ensures s.sh == Shared(["hi"], message, true, false)
  {
    var s1, run1 := Extend(job, INITIAL, [], Prepare);
    var s2, run2 := Extend(job, s1, run1, Iterate);
    var s3, run3 := Extend(job, s2, run2, Iterate);
    s, steps := Extend(job, s3, run3, Publish);
  }

  /** The provider writes the one token left, and then the final record. */
  lemma ProviderRuns(job: Job, s: System, run: seq<Step>) returns (steps: seq<Step>)
    requires Exec(job, run) == Some(s) && s.gen.Finished? && s.prov.Calling? && !s.severed
    requires |s.sh.tokens| == 1 && s.sh.done && !s.sh.aborted && Utf8(s.sh.tokens[0]) && Utf8(s.sh.text)
    ensures Exec(job, steps).Some? && Terminal(Exec(job, steps).value) && !Exec(job, steps).value.severed
  {
    var s1, run1 := Extend(job, s, run, Call);
    var s2, run2 := Extend(job, s1, run1, WriteOk);
    var s3, run3 := Extend(job, s2, run2, Relock);
    var s4, run4 := Extend(job, s3, run3, SendDone(|DoneLine(s.sh.text)|));
    var s5, run5 := Extend(job, s4, run4, Release);
    steps := run5;
  }

  lemma Extend(job: Job, s: System, steps: seq<Step>, step: Step) returns (s': System, steps': seq<Step>)
    requires Exec(job, steps) == Some(s) && Enabled(s, step)
    ensures s' == Apply(job, s, step) && Exec(job, steps') == Some(s')
  {
    s', steps' := Apply(job, s, step), steps + [step];
    assert steps'[..|steps|] == steps;
  }

  // ---- to the client ----

  /** The tokens a client has read, when `on_token` was called with `offered`. */
  function Seen(
    e: Endpoint, m: Events.Meta, offered: seq<string>, error: Option<string>, turns: seq<Sse.Turn>): seq<string>
  {
    var x := Sse.Play(Events.ScriptOf(Events.WordingOf(e), m, offered, error), Sse.OPEN, turns);
    Events.Contents(Events.WordingOf(e), Sse.Decode(x.trace.out))
  }

  predicate PipeAborted(
    e: Endpoint, m: Events.Meta, offered: seq<string>, error: Option<string>, turns: seq<Sse.Turn>)
  {
    Sse.Play(Events.ScriptOf(Events.WordingOf(e), m, offered, error), Sse.OPEN, turns).trace.pipe.aborted
  }

  /** The client has seen the end of the stream. */
  predicate StreamEnded(
    e: Endpoint, m: Events.Meta, offered: seq<string>, error: Option<string>, turns: seq<Sse.Turn>)
  {
    Sse.Play(Events.ScriptOf(Events.WordingOf(e), m, offered, error), Sse.OPEN, turns).trace.ended
  }

  /** The write of the last of `calls` to the pipe, between whatever reads `turns` has there, is refused. */
  predicate PipeRefuses(e: Endpoint, m: Events.Meta, error: Option<string>, turns: seq<Sse.Turn>, calls: seq<string>)
  {
    calls != [] &&
    Sse.TokenWrite(Events.ScriptOf(Events.WordingOf(e), m, calls, error), Sse.OPEN, turns, |calls| - 1) == Some(false)
  }

  /** The callback of either endpoint: it writes the token's event to the pipe and goes on if that
      write was not refused. */
  function PipeCallback(
    e: Endpoint, m: Events.Meta, error: Option<string>, turns: seq<Sse.Turn>): seq<string> -> Verdict
  {
    (calls: seq<string>) => if PipeRefuses(e, m, error, turns, calls) then Abort else Continue
  }

  function PipeEnv(
    parse: string -> Option<Value>, e: Endpoint, m: Events.Meta, error: Option<string>, turns: seq<Sse.Turn>): Env
  {
    Env(parse, Some(PipeCallback(e, m, error, turns)))
  }

  /** What `on_token` has been called with by the time `chunks` have been received. */
  function Offered(
    parse: string -> Option<Value>, e: Endpoint, m: Events.Meta, error: Option<string>, turns: seq<Sse.Turn>,
    chunks: seq<string>): seq<string>
  {
    FeedAll(PipeEnv(parse, e, m, error, turns), Stream("", START), chunks).0.obs.calls
  }

  /** The run is over, its connection held, everything can be dumped, and all of it was received. */
  ghost predicate Delivered(job: Job, steps: seq<Step>, chunks: seq<string>)
    requires Exec(job, steps).Some?
  {
    var s := Exec(job, steps).value;
    Terminal(s) && !s.severed && AllUtf8(Generated(job)) && Utf8(FinalText(job)) && Concat(chunks) == Wire(s)
  }

  lemma RefusalAborts(e: Endpoint, m: Events.Meta, error: Option<string>, turns: seq<Sse.Turn>, calls: seq<string>)
    requires PipeRefuses(e, m, error, turns, calls)
    ensures PipeAborted(e, m, calls, error, turns)
  {
    Sse.RefusedWriteAborts(Events.ScriptOf(Events.WordingOf(e), m, calls, error), turns, |calls| - 1);
  }

  /** The stream is stopped only by a pipe that is aborted. */
  lemma StoppedByThePipe(
    parse: string -> Option<Value>, e: Endpoint, m: Events.Meta, error: Option<string>, turns: seq<Sse.Turn>, o: Obs)
    requires Stopped(PipeEnv(parse, e, m, error, turns), o)
    ensures PipeAborted(e, m, o.calls, error, turns)
  {
    assert PipeRefuses(e, m, error, turns, o.calls);
    RefusalAborts(e, m, error, turns, o.calls);
  }

  /** `on_token` is not called again after a write that was refused, and if the last one was, the receiver
      has returned false and the transfer is over. */
  lemma NoCallAfterRefusal(
    parse: string -> Option<Value>, e: Endpoint, m: Events.Meta, error: Option<string>, turns: seq<Sse.Turn>,
    chunks: seq<string>)
    ensures var offered := Offered(parse, e, m, error, turns, chunks);
            && (forall n | 0 < n < |offered| :: !PipeRefuses(e, m, error, turns, offered[..n]))
            && (PipeRefuses(e, m, error, turns, offered) ==>
                  !FeedAll(PipeEnv(parse, e, m, error, turns), Stream("", START), chunks).1)
  {
    var env := PipeEnv(parse, e, m, error, turns);
    WholeBody(env, chunks);
    StoppingCutsTheTrace(env, START, Split(Concat(chunks)).0);
    var offered := Offered(parse, e, m, error, turns, chunks);
    forall n | 0 < n < |offered| ensures !PipeRefuses(e, m, error, turns, offered[..n]) {
      assert env.onToken.value(offered[..n]) == Continue;
    }
  }

  /** What a streaming call comes back with: an error if no runner can be had for the model. */
  function StreamingCall(e: Endpoint, model: string, started: bool, t: Transfer, o: Obs): Outcome<string>
  {
    if started then CallResult(e, t, o) else Failure(ModelError, "Failed to start runner for " + model)
  }

  /** The message the producer thread has to pass on. */
  function ErrorOf(r: Outcome<string>): Option<string>
  {
    if r.Failure? then Some(r.message) else None
  }

  /** A call that fails is never an empty success for the client: once it has read `[DONE]`, or seen the
      end of a stream the pipe never refused, it has read exactly the one message the call failed with,
      and none if it did not fail. */
  lemma FailureIsTold(
    e: Endpoint, m: Events.Meta, started: bool, t: Transfer, o: Obs, tokens: seq<string>, turns: seq<Sse.Turn>)
    requires var error := ErrorOf(StreamingCall(e, m.model, started, t, o));
             var x := Sse.Play(Events.ScriptOf(Events.WordingOf(e), m, tokens, error), Sse.OPEN, turns);
             "[DONE]" in Sse.Decode(x.trace.out)
             || (StreamEnded(e, m, tokens, error, turns) && !PipeAborted(e, m, tokens, error, turns))
    ensures var error := ErrorOf(StreamingCall(e, m.model, started, t, o));
            var x := Sse.Play(Events.ScriptOf(Events.WordingOf(e), m, tokens, error), Sse.OPEN, turns);
            var told := Events.Messages(Sse.Decode(x.trace.out));
            && (told == [] <==> started && t == Response(200) && !o.gotError)
            && (!started ==> told == ["Failed to start runner for " + m.model])
            && (started && t == Response(200) && o.gotError ==> told == [o.errorMsg])
            && (started && t == NoResponse ==> told == ["Runner connection failed"])
  {
    var error := ErrorOf(StreamingCall(e, m.model, started, t, o));
    Events.EndpointsAreWellWorded(e);
    Events.ResponseClient(Events.WordingOf(e), m, tokens, error, turns);
  }

  /** Sampler to client: whatever the runner's threads, the network, the pipe and the readers do, a client
      of either endpoint has at any moment read a prefix of the generated pieces; and after a finished run
      whose connection held and a pipe that never refused, at the end of the stream, exactly those. */
  lemma SamplerToClient(
    job: Job, steps: seq<Step>, parse: string -> Option<Value>, chunks: seq<string>,
    e: Endpoint, m: Events.Meta, error: Option<string>, turns: seq<Sse.Turn>)
    requires Exec(job, steps).Some? && Concat(chunks) <= Wire(Exec(job, steps).value) && Inverts(parse)
    ensures var offered := Offered(parse, e, m, error, turns, chunks);
            && Seen(e, m, offered, error, turns) <= offered <= Generated(job)
            && (Delivered(job, steps, chunks)
                && StreamEnded(e, m, offered, error, turns) && !PipeAborted(e, m, offered, error, turns)
                ==> Seen(e, m, offered, error, turns) == Generated(job))
  {
    var env, offered := PipeEnv(parse, e, m, error, turns), Offered(parse, e, m, error, turns, chunks);
    PrefixSafety(job, steps, env, chunks);
    Events.EndpointsAreWellWorded(e);
    Events.ResponseClient(Events.WordingOf(e), m, offered, error, turns);
    if Delivered(job, steps, chunks) && !PipeAborted(e, m, offered, error, turns) {
      DeliveredOrStopped(job, steps, env, chunks);
      var o := FeedAll(env, Stream("", START), chunks).0.obs;
      if Stopped(env, o) {
        StoppedByThePipe(parse, e, m, error, turns, o);
      }
    }
  }
}
