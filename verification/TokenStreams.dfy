/** The runner's side of the wire: the token loop, the shared `TokenStream`, and the generator thread
    and content provider that work on it, as a transition system at lock granularity. */
module TokenStreams {
  import opened Prelude
  import opened Lines
  import opened Json

  // ---- the token loop ----

  /** One round of sampling: the end-of-generation token, a piece (empty when the token has no text or
      does not fit the buffer) with whether the decode after it succeeded, or an exception. */
  datatype Sample = EndOfGeneration | Sampled(piece: string, decoded: bool) | SampleRaises(message: string)

  /** Context, tokenization and prompt decoding: usable, not (the text is then empty), or an exception. */
  datatype Setup = Ready | Unusable | SetupRaises(message: string)

  datatype Job = Job(maxTokens: int, setup: Setup, samples: nat -> Sample)

  function Limit(job: Job): nat
  {
    if job.maxTokens > 0 then job.maxTokens else 256
  }

  /** The pieces produced from round `i` on. */
  function Pieces(job: Job, i: nat): (r: seq<string>)
    requires i <= Limit(job)
    ensures |r| <= Limit(job) - i && "" !in r
    decreases Limit(job) - i
  {
    if i == Limit(job) || !job.samples(i).Sampled? then [] else
      var Sampled(piece, decoded) := job.samples(i);
      (if piece == "" then [] else [piece]) + (if decoded then Pieces(job, i + 1) else [])
  }

  /** The exception that ends the loop, if one does. */
  function Raised(job: Job, i: nat): Option<string>
    requires i <= Limit(job)
    decreases Limit(job) - i
  {
    if i == Limit(job) then None else
      match job.samples(i)
      case EndOfGeneration => None
      case SampleRaises(message) => Some(message)
      case Sampled(_, decoded) => if decoded then Raised(job, i + 1) else None
  }

  function Generated(job: Job): seq<string>
  {
    if job.setup.Ready? then Pieces(job, 0) else []
  }

  /** The text of the final record when `output` has been produced before round `i`. */
  function TextFrom(job: Job, i: nat, output: string): string
    requires i <= Limit(job)
  {
    match Raised(job, i)
    case None => output + Concat(Pieces(job, i))
    case Some(message) => message
  }

  function FinalText(job: Job): string
  {
    match job.setup
    case Ready => TextFrom(job, 0, "")
    case Unusable => ""
    case SetupRaises(message) => message
  }

  /** The exception `generate` leaves with, if any. */
  function ExceptionOf(job: Job): Option<string>
  {
    match job.setup
    case Ready => Raised(job, 0)
    case Unusable => None
    case SetupRaises(message) => Some(message)
  }

  /** The final text is the concatenation of the pieces exactly when nothing is thrown, or the message of
      what is thrown happens to be that concatenation: after an exception the text is its message. */
  lemma FinalTextIsConcat(job: Job)
    ensures ExceptionOf(job).Some? ==> FinalText(job) == ExceptionOf(job).value
    ensures FinalText(job) == Concat(Generated(job)) <==>
            ExceptionOf(job).None? || ExceptionOf(job).value == Concat(Generated(job))
  {}

  function Push(made: seq<string>, piece: string): seq<string>
  {
    if piece == "" then made else made + [piece]
  }

  function PiecesAfter(job: Job, i: nat): seq<string>
    requires i < Limit(job) && job.samples(i).Sampled?
  {
    if job.samples(i).decoded then Pieces(job, i + 1) else []
  }

  function TextAfter(job: Job, i: nat, output: string): string
    requires i < Limit(job) && job.samples(i).Sampled?
  {
    if job.samples(i).decoded then TextFrom(job, i + 1, output) else output
  }

  /** One round, given what was produced before it. */
  lemma RoundPieces(job: Job, i: nat, made: seq<string>)
    requires i < Limit(job) && job.samples(i).Sampled?
    ensures Push(made, job.samples(i).piece) + PiecesAfter(job, i) == made + Pieces(job, i)
  {
    var piece, rest := job.samples(i).piece, PiecesAfter(job, i);
    assert Pieces(job, i) == (if piece == "" then [] else [piece]) + rest;
  }

  lemma RoundText(job: Job, i: nat, output: string)
    requires i < Limit(job) && job.samples(i).Sampled?
    ensures TextAfter(job, i, output + job.samples(i).piece) == TextFrom(job, i, output)
  {
    if job.samples(i).decoded ==> Raised(job, i + 1).None? {
      ConcatPush(job.samples(i).piece, PiecesAfter(job, i));
      Assoc(output, job.samples(i).piece, Concat(PiecesAfter(job, i)));
      assert (output + job.samples(i).piece) + "" == output + job.samples(i).piece;
    }
  }

  lemma ConcatPush(piece: string, rest: seq<string>)
    ensures Concat((if piece == "" then [] else [piece]) + rest) == piece + Concat(rest)
  {
    if piece == "" {
      assert [] + rest == rest;
    } else {
      assert ([piece] + rest)[1..] == rest;
    }
  }

  /** Round `i` is followed by another one, unless the limit is reached. */
  predicate GoesOn(job: Job, i: nat)
  {
    job.samples(i).Sampled? && job.samples(i).decoded
  }

  function TextOf(sample: Sample): string
  {
    if sample.Sampled? then sample.piece else ""
  }

  /** What the rounds from `i` up to `n` sample. */
  function Texts(job: Job, i: nat, n: nat): (r: seq<string>)
    requires i <= n
    ensures |r| == n - i && forall k | 0 <= k < |r| :: r[k] == TextOf(job.samples(i + k))
  {
    seq(n - i, k requires 0 <= k < n - i => TextOf(job.samples(i + k)))
  }

  function NonEmpty(texts: seq<string>): seq<string>
  {
    if texts == [] then [] else (if texts[0] == "" then [] else [texts[0]]) + NonEmpty(texts[1..])
  }

  lemma TextsStep(job: Job, i: nat, n: nat)
    requires i < n
    ensures NonEmpty(Texts(job, i, n)) ==
            (if TextOf(job.samples(i)) == "" then [] else [TextOf(job.samples(i))]) + NonEmpty(Texts(job, i + 1, n))
  {
    assert Texts(job, i, n)[1..] == Texts(job, i + 1, n);
  }

  lemma {:induction false} PiecesFrom(job: Job, i: nat, n: nat)
    requires i <= n <= Limit(job) && (forall k | i <= k < n :: GoesOn(job, k))
    requires n == Limit(job) || !GoesOn(job, n)
    ensures Pieces(job, i) == NonEmpty(Texts(job, i, if n < Limit(job) then n + 1 else n))
    ensures Raised(job, i) ==
            if n < Limit(job) && job.samples(n).SampleRaises? then Some(job.samples(n).message) else None
    decreases n - i
  {
    var end := if n < Limit(job) then n + 1 else n;
    if i < end {
      TextsStep(job, i, end);
    }
    if i < n {
      assert GoesOn(job, i);
      PiecesFrom(job, i + 1, n);
    } else if n < Limit(job) {
      assert Texts(job, n + 1, end) == [] && !GoesOn(job, n);
    }
  }

  /** With `n` the first round that is not followed by another one: the pieces are the nonempty texts
      sampled up to and with that round, so the token whose decode fails is still delivered; and what is
      thrown is what that round throws. The limit is `max_tokens`, or 256 if that is not positive. */
  lemma PiecesAre(job: Job, n: nat)
    requires job.setup.Ready?
    requires n <= (if job.maxTokens > 0 then job.maxTokens else 256) && forall k | 0 <= k < n :: GoesOn(job, k)
    requires n == (if job.maxTokens > 0 then job.maxTokens else 256) || !GoesOn(job, n)
    ensures var full := n == if job.maxTokens > 0 then job.maxTokens else 256;
            && Generated(job) == NonEmpty(Texts(job, 0, if full then n else n + 1))
            && ExceptionOf(job) ==
               if !full && job.samples(n).SampleRaises? then Some(job.samples(n).message) else None
  {
    PiecesFrom(job, 0, n);
  }

  /** `generate`: `pushed` is what `on_token` is called with; `thrown` the exception it leaves with. */
  method Generate(job: Job) returns (output: string, pushed: seq<string>, thrown: Option<string>)
    ensures pushed == Generated(job) && |pushed| <= Limit(job)
    ensures thrown == ExceptionOf(job)
    ensures thrown.None? ==> output == Concat(pushed) == FinalText(job)
    ensures thrown.Some? ==> thrown.value == FinalText(job)
  {
    match job.setup
    case SetupRaises(message) =>
      output, pushed, thrown := "", [], Some(message);
    case Unusable =>
      output, pushed, thrown := "", [], None;
    case Ready =>
      output, pushed, thrown := SampleLoop(job);
  }

  /** The loop's state before round `i`. */
  ghost predicate Produced(job: Job, i: nat, output: string, pushed: seq<string>)
  {
    && i <= Limit(job)
    && output == Concat(pushed)
    && pushed + Pieces(job, i) == Pieces(job, 0)
    && Raised(job, i) == Raised(job, 0)
  }

  /** ... and after the last one. */
  ghost predicate AllProduced(job: Job, output: string, pushed: seq<string>)
  {
    pushed == Pieces(job, 0) && output == Concat(pushed)
  }

  lemma RoundProduces(job: Job, i: nat, output: string, pushed: seq<string>)
    requires Produced(job, i, output, pushed) && i < Limit(job) && job.samples(i).Sampled?
    ensures var Sampled(piece, decoded) := job.samples(i);
            if decoded then Produced(job, i + 1, output + piece, Push(pushed, piece))
            else AllProduced(job, output + piece, Push(pushed, piece)) && Raised(job, 0).None?
  {
    var Sampled(piece, decoded) := job.samples(i);
    var made := Push(pushed, piece);
    RoundPieces(job, i, pushed);
    assert output + "" == output && made + [] == made;
    if piece != "" {
      ConcatOne(pushed, piece);
    }
  }

  lemma LastRound(job: Job, i: nat, output: string, pushed: seq<string>)
    requires Produced(job, i, output, pushed) && (i == Limit(job) || !job.samples(i).Sampled?)
    ensures AllProduced(job, output, pushed)
  {
    assert pushed + [] == pushed;
  }

  /** A token with text: the output grows by it and `on_token` is called. */
  method Emit(output: string, pushed: seq<string>, piece: string) returns (output': string, pushed': seq<string>)
    ensures output' == output + piece && pushed' == Push(pushed, piece)
  {
    output', pushed' := output, pushed;
    if piece != "" {
      output' := output + piece;
      pushed' := pushed + [piece];
    } else {
      assert output + "" == output;
    }
  }

  method SampleLoop(job: Job) returns (output: string, pushed: seq<string>, thrown: Option<string>)
    ensures pushed == Pieces(job, 0)
    ensures thrown == Raised(job, 0)
    ensures output == Concat(pushed)
  {
    output, pushed, thrown := "", [], None;
    var maxTokens := if job.maxTokens > 0 then job.maxTokens else 256;
    var i := 0;
    FirstRound(job);
    while i < maxTokens
      invariant i <= maxTokens == Limit(job)
      invariant Produced(job, i, output, pushed)
    {
      var sample := job.samples(i);
      if sample.EndOfGeneration? {
        break;
      }
      if sample.SampleRaises? {
        thrown := Some(sample.message);
        break;
      }
      RoundProduces(job, i, output, pushed);
      output, pushed := Emit(output, pushed, sample.piece);
      if !sample.decoded {
        return;
      }
      i := i + 1;
    }
    LastRound(job, i, output, pushed);
  }

  lemma FirstRound(job: Job)
    ensures Produced(job, 0, "", [])
  {
    assert [] + Pieces(job, 0) == Pieces(job, 0);
  }

  // ---- the shared stream and its critical sections ----

  datatype Shared = Shared(tokens: seq<string>, text: string, done: bool, aborted: bool)

  /** What the provider does next: wait, write a token or the final record without the lock, return
      true, return false, or leave by the exception that dumping invalid UTF-8 throws. */
  datatype Action = Sleep | WriteToken(token: string) | WriteDone(text: string) | CallAgain | Refuse | Raise

  predicate Wakes(sh: Shared)
  {
    sh.tokens != [] || sh.done || sh.aborted
  }

  function PushTo(sh: Shared, t: string): Shared
  {
    if sh.aborted then sh else sh.(tokens := sh.tokens + [t])
  }

  function PublishTo(sh: Shared, t: string): Shared
  {
    sh.(text := t, done := true)
  }

  function AbortOf(sh: Shared): Shared
  {
    sh.(aborted := true)
  }

  /** From the head of the drain loop, with the lock held, to where the lock is next released. */
  function Drain(sh: Shared): (Shared, Action)
  {
    if sh.tokens != [] then
      if Utf8(sh.tokens[0]) then (sh.(tokens := sh.tokens[1..]), WriteToken(sh.tokens[0])) else (sh, Raise)
    else if sh.done then
      (sh, if Utf8(sh.text) then WriteDone(sh.text) else Raise)
    else
      (sh, CallAgain)
  }

  /** From taking the lock, or being woken with it, to where the lock is next released. */
  function Enter(sh: Shared): (Shared, Action)
  {
    if !Wakes(sh) then (sh, Sleep)
    else if sh.aborted then (sh, Refuse)
    else Drain(sh)
  }

  /** A call that gets past the wait takes a token off the queue or ends the stream. */
  lemma CallConsumes(sh: Shared)
    ensures Enter(sh).1 != CallAgain
    ensures Enter(sh).1.WriteToken? ==> [Enter(sh).1.token] + Enter(sh).0.tokens == sh.tokens
    ensures !Enter(sh).1.WriteToken? ==> Enter(sh).0 == sh
    ensures sh.aborted ==> Enter(sh).1 == Refuse
  {}

  /** What `on_token` does to an open stream and to an aborted one: the token joins the queue at its end,
      or is dropped. An abort leaves the queue as it is. */
  lemma AbortedTakesNothing(sh: Shared, t: string)
    ensures AbortOf(sh).aborted && AbortOf(sh).tokens == sh.tokens && AbortOf(sh).done == sh.done
    ensures PushTo(AbortOf(sh), t) == AbortOf(sh)
    ensures !sh.aborted ==> PushTo(sh, t) == sh.(tokens := sh.tokens + [t])
  {}

  class TokenStream {
    var tokens: seq<string>
    var text: string
    var done: bool
    var aborted: bool

    constructor ()
      ensures Value() == Shared([], "", false, false)
    {
      tokens, text, done, aborted := [], "", false, false;
    }

    function Value(): Shared
      reads this
    {
      Shared(tokens, text, done, aborted)
    }

    method Push(t: string)
      modifies this
      ensures Value() == PushTo(old(Value()), t)
    {
      if aborted {
        return;
      }
      tokens := tokens + [t];
    }

    method Publish(t: string)
      modifies this
      ensures Value() == PublishTo(old(Value()), t)
    {
      text := t;
      done := true;
    }

    method MarkAborted()
      modifies this
      ensures Value() == AbortOf(old(Value()))
    {
      aborted := true;
    }

    method EnterProvider() returns (a: Action)
      modifies this
      ensures (Value(), a) == Enter(old(Value()))
    {
      if tokens == [] && !done && !aborted {
        return Sleep;
      }
      if aborted {
        return Refuse;
      }
      a := DrainLoopHead();
    }

    method DrainLoopHead() returns (a: Action)
      modifies this
      ensures (Value(), a) == Drain(old(Value()))
    {
      if tokens != [] {
        var front := tokens[0];
        if !Utf8(front) {
          return Raise;
        }
        tokens := tokens[1..];
        return WriteToken(front);
      }
      if done {
        return if Utf8(text) then WriteDone(text) else Raise;
      }
      return CallAgain;
    }
  }

  // ---- generator and provider, interleaved ----

  datatype Generator = Preparing | Looping(i: nat, output: string) | Publishing(text: string) | Finished

  /** Where the HTTP library's thread is. `Calling` is about to take the lock; `Returned` is after the
      provider returned false; `Released` after the completion callback. */
  datatype Provider =
    | Calling | Asleep | Awake
    | Writing(token: string) | Failing(token: string) | Relocking
    | Ending(text: string) | Returned | Released | Thrown

  /** `generated`: what `on_token` was called with; `pushed`: what reached the queue; `written`: the
      tokens whose record was written; `lost`: the token whose write failed; `tail`: the bytes sent
      after the last written record; `ended`: the final record has been handed to the sink;
      `severed`: a write fell short or the connection was given up. */
  datatype System = System(
    gen: Generator, prov: Provider, sh: Shared,
    generated: seq<string>, pushed: seq<string>, written: seq<string>, lost: seq<string>,
    tail: string, ended: bool, severed: bool)

  const INITIAL := System(Preparing, Calling, Shared([], "", false, false), [], [], [], [], "", false, false)

  datatype Step =
    | Prepare | Iterate | Publish
    | Call | SpuriousWake | Recheck
    | WriteOk | WriteFail(sent: nat) | MarkAborted | Relock
    | SendDone(sent: nat) | Disconnect | Release

  function TokenLine(t: string): string { TokenRecord(t) + "\n" }

  function DoneLine(text: string): string { DoneRecord(text) + "\n" }

  predicate Enabled(s: System, step: Step)
  {
    match step
    case Prepare => s.gen.Preparing?
    case Iterate => s.gen.Looping?
    case Publish => s.gen.Publishing?
    case Call => s.prov.Calling?
    case SpuriousWake => s.prov.Asleep?
    case Recheck => s.prov.Awake?
    case WriteOk => s.prov.Writing?
    case WriteFail(sent) => s.prov.Writing? && sent <= |TokenLine(s.prov.token)|
    case MarkAborted => s.prov.Failing?
    case Relock => s.prov.Relocking?
    case SendDone(sent) => s.prov.Ending? && sent <= |DoneLine(s.prov.text)|
    case Disconnect => s.prov.Calling?
    case Release => s.prov.Returned?
  }

  function Notify(p: Provider): Provider
  {
    if p.Asleep? then Awake else p
  }

  function Follow(s: System, next: (Shared, Action)): System
  {
    s.(sh := next.0,
       prov := match next.1
               case Sleep => Asleep
               case WriteToken(t) => Writing(t)
               case WriteDone(text) => Ending(text)
               case CallAgain => Calling
               case Refuse => Returned
               case Raise => Thrown)
  }

  function OnToken(s: System, piece: string): System
  {
    if s.sh.aborted then
      s.(generated := s.generated + [piece])
    else
      s.(generated := s.generated + [piece], pushed := s.pushed + [piece],
         sh := PushTo(s.sh, piece), prov := Notify(s.prov))
  }

  function IterateStep(job: Job, s: System): System
    requires s.gen.Looping?
  {
    var Looping(i, output) := s.gen;
    if i >= Limit(job) then s.(gen := Publishing(output)) else
      match job.samples(i)
      case EndOfGeneration => s.(gen := Publishing(output))
      case SampleRaises(message) => s.(gen := Publishing(message))
      case Sampled(piece, decoded) =>
        var s' := if piece == "" then s else OnToken(s, piece);
        s'.(gen := if decoded then Looping(i + 1, output + piece) else Publishing(output + piece))
  }

  function Apply(job: Job, s: System, step: Step): System
    requires Enabled(s, step)
  {
    match step
    case Prepare =>
      s.(gen := match job.setup
                case Ready => Looping(0, "")
                case Unusable => Publishing("")
                case SetupRaises(message) => Publishing(message))
    case Iterate => IterateStep(job, s)
    case Publish =>
      s.(gen := Finished, sh := PublishTo(s.sh, s.gen.text), prov := Notify(s.prov))
    case Call => Follow(s, Enter(s.sh))
    case SpuriousWake => s.(prov := Awake)
    case Recheck => Follow(s, Enter(s.sh))
    case WriteOk => s.(prov := Relocking, written := s.written + [s.prov.token])
    case WriteFail(sent) => s.(prov := Failing(s.prov.token), tail := TokenLine(s.prov.token)[..sent], severed := true)
    case MarkAborted => s.(prov := Returned, lost := [s.prov.token], sh := AbortOf(s.sh))
    case Relock => Follow(s, Drain(s.sh))
    case SendDone(sent) =>
      s.(prov := Returned, tail := DoneLine(s.prov.text)[..sent], ended := true,
         severed := s.severed || sent < |DoneLine(s.prov.text)|)
    case Disconnect => s.(prov := Returned, severed := true)
    case Release => s.(prov := Released, sh := AbortOf(s.sh))
  }

  /** The state after a run, if every step of it is enabled in turn. */
  function Exec(job: Job, steps: seq<Step>): Option<System>
  {
    if steps == [] then Some(INITIAL) else
      match Exec(job, steps[..|steps| - 1])
      case None => None
      case Some(s) => if Enabled(s, steps[|steps| - 1]) then Some(Apply(job, s, steps[|steps| - 1])) else None
  }

  // ---- safety ----

  /** The at most one token that has left the queue and is not accounted for as written. */
  function InFlight(s: System): seq<string>
  {
    match s.prov
    case Writing(t) => [t]
    case Failing(t) => [t]
    case _ => s.lost
  }

  ghost predicate GeneratorInv(job: Job, s: System)
  {
    && (s.sh.done <==> s.gen.Finished?)
    && match s.gen
       case Preparing => s.generated == []
       case Looping(i, output) =>
         && job.setup.Ready? && i <= Limit(job)
         && s.generated + Pieces(job, i) == Generated(job)
         && TextFrom(job, i, output) == FinalText(job)
       case Publishing(text) => s.generated == Generated(job) && text == FinalText(job)
       case Finished => s.generated == Generated(job) && s.sh.text == FinalText(job)
  }

  /** Nothing is lost, duplicated or reordered between `on_token` and the sink. */
  ghost predicate Conserved(s: System)
  {
    && s.pushed <= s.generated
    && (!s.sh.aborted ==> s.pushed == s.generated)
    && s.written + InFlight(s) + s.sh.tokens == s.pushed
    && (s.lost != [] ==> |s.lost| == 1 && (s.prov.Returned? || s.prov.Released?))
    && AllUtf8(s.written + InFlight(s))
  }

  /** The final record is sent at most once, last, and only when every generated token was written. */
  ghost predicate EndsWell(job: Job, s: System)
  {
    s.prov.Ending? || s.ended ==>
      && s.gen.Finished? && s.sh.tokens == [] && InFlight(s) == []
      && s.written == Generated(job) && Utf8(FinalText(job))
      && (s.prov.Ending? ==> !s.ended && s.prov.text == FinalText(job))
      && (s.ended ==> s.prov.Returned? || s.prov.Released?)
  }

  /** What has been sent after the last whole record. */
  ghost predicate TailInv(job: Job, s: System)
  {
    if s.ended then
      s.tail <= DoneLine(FinalText(job)) && (!s.severed ==> s.tail == DoneLine(FinalText(job)))
    else if s.prov.Failing? || s.lost != [] then
      s.severed && s.tail <= TokenLine(InFlight(s)[0])
    else
      s.tail == ""
  }

  ghost predicate ControlInv(job: Job, s: System)
  {
    && (s.prov.Asleep? ==> !Wakes(s.sh))
    && (s.sh.aborted ==> s.prov.Returned? || s.prov.Released?)
    && (s.prov.Released? || s.lost != [] ==> s.sh.aborted)
    && (s.prov.Returned? || s.prov.Released? ==> s.ended || s.severed)
    && (s.prov.Thrown? ==> if s.sh.tokens != [] then !Utf8(s.sh.tokens[0]) else s.sh.done && !Utf8(s.sh.text))
    && (s.severed && !s.ended ==> s.prov.Failing? || s.prov.Returned? || s.prov.Released?)
  }

  ghost predicate StreamInv(job: Job, s: System)
  {
    Conserved(s) && EndsWell(job, s) && TailInv(job, s) && ControlInv(job, s)
  }

  ghost predicate Inv(job: Job, s: System)
  {
    GeneratorInv(job, s) && StreamInv(job, s)
  }

  lemma OnTokenKeepsInv(job: Job, s: System, piece: string)
    requires StreamInv(job, s) && !s.gen.Finished? && !s.sh.done
    ensures StreamInv(job, OnToken(s, piece))
  {
    if !s.sh.aborted {
      assert s.written + InFlight(s) + (s.sh.tokens + [piece]) == (s.written + InFlight(s) + s.sh.tokens) + [piece];
    }
  }

  lemma MovingOnKeepsInv(job: Job, s: System, gen: Generator)
    requires StreamInv(job, s) && !s.gen.Finished? && !gen.Finished?
    ensures StreamInv(job, s.(gen := gen))
  {}

  lemma IterateKeepsGenerator(job: Job, s: System)
    requires GeneratorInv(job, s) && s.gen.Looping?
    ensures GeneratorInv(job, IterateStep(job, s))
  {
    var Looping(i, output) := s.gen;
    if i == Limit(job) || !job.samples(i).Sampled? {
      assert s.generated + [] == s.generated;
      assert output + Concat([]) == output;
    } else {
      RoundPieces(job, i, s.generated);
      RoundText(job, i, output);
      assert IterateStep(job, s).generated == Push(s.generated, job.samples(i).piece);
      assert IterateStep(job, s).generated + [] == IterateStep(job, s).generated;
    }
  }

  lemma IterateKeepsStream(job: Job, s: System)
    requires Inv(job, s) && s.gen.Looping?
    ensures StreamInv(job, IterateStep(job, s))
  {
    var i, gen := s.gen.i, IterateStep(job, s).gen;
    if i < Limit(job) && job.samples(i).Sampled? && job.samples(i).piece != "" {
      OnTokenKeepsInv(job, s, job.samples(i).piece);
      MovingOnKeepsInv(job, OnToken(s, job.samples(i).piece), gen);
    } else {
      MovingOnKeepsInv(job, s, gen);
    }
  }

  lemma DrainTokenKeepsInv(job: Job, s: System)
    requires Inv(job, s) && !s.sh.aborted && s.sh.tokens != [] && Utf8(s.sh.tokens[0])
    requires s.prov.Calling? || s.prov.Awake? || s.prov.Relocking?
    ensures Inv(job, Follow(s, Drain(s.sh)))
  {
    var t, rest := s.sh.tokens[0], s.sh.tokens[1..];
    var s' := Follow(s, Drain(s.sh));
    assert s.lost == [] && s.written + [] == s.written;
    assert s.sh.tokens == [t] + rest && s' == s.(sh := s.sh.(tokens := rest), prov := Writing(t));
    Assoc(s.written, [t], rest);
    assert GeneratorInv(job, s') && Conserved(s');
  }

  /** With no token to write the provider ends the stream, leaves by an exception, or returns. */
  lemma DrainRestKeepsInv(job: Job, s: System)
    requires Inv(job, s) && !s.sh.aborted && (s.sh.tokens == [] || !Utf8(s.sh.tokens[0]))
    requires s.prov.Calling? || s.prov.Awake? || s.prov.Relocking?
    ensures Inv(job, Follow(s, Drain(s.sh)))
  {
    var s' := Follow(s, Drain(s.sh));
    assert s.lost == [] && s.written + [] == s.written;
    assert s'.sh == s.sh && InFlight(s') == [] && !s.ended;
    assert GeneratorInv(job, s') && Conserved(s');
    assert EndsWell(job, s') && TailInv(job, s');
  }

  lemma DrainKeepsInv(job: Job, s: System)
    requires Inv(job, s) && !s.sh.aborted
    requires s.prov.Calling? || s.prov.Awake? || s.prov.Relocking?
    ensures Inv(job, Follow(s, Drain(s.sh)))
  {
    if s.sh.tokens != [] && Utf8(s.sh.tokens[0]) {
      DrainTokenKeepsInv(job, s);
    } else {
      DrainRestKeepsInv(job, s);
    }
  }

  lemma EnterKeepsInv(job: Job, s: System)
    requires Inv(job, s)
    requires s.prov.Calling? || s.prov.Awake?
    ensures Inv(job, Follow(s, Enter(s.sh)))
  {
    if Wakes(s.sh) {
      DrainKeepsInv(job, s);
    }
  }

  lemma WriteKeepsInv(job: Job, s: System, step: Step)
    requires Inv(job, s) && Enabled(s, step)
    requires step.WriteOk? || step.WriteFail? || step.MarkAborted?
    ensures Inv(job, Apply(job, s, step))
  {
    if step.WriteOk? {
      assert s.written + [s.prov.token] + [] == s.written + [s.prov.token];
    }
  }

  lemma DoneKeepsInv(job: Job, s: System, sent: nat)
    requires Inv(job, s) && Enabled(s, SendDone(sent))
    ensures Inv(job, Apply(job, s, SendDone(sent)))
  {
    var line := DoneLine(s.prov.text);
    assert line[..sent] <= line && (sent == |line| ==> line[..sent] == line);
    assert InFlight(s) == s.lost == [];
  }

  lemma ReleaseKeepsInv(job: Job, s: System)
    requires Inv(job, s) && s.prov.Returned?
    ensures Inv(job, Apply(job, s, Release))
  {
    assert InFlight(s) == s.lost;
  }

  lemma StepKeepsInv(job: Job, s: System, step: Step)
    requires Inv(job, s) && Enabled(s, step)
    ensures Inv(job, Apply(job, s, step))
  {
    match step
    case Prepare =>
      assert [] + Generated(job) == Generated(job);
    case Iterate =>
      IterateKeepsGenerator(job, s);
      IterateKeepsStream(job, s);
    case Publish =>
    case SpuriousWake =>
    case Call => EnterKeepsInv(job, s);
    case Recheck => EnterKeepsInv(job, s);
    case Relock => DrainKeepsInv(job, s);
    case WriteOk => WriteKeepsInv(job, s, step);
    case WriteFail(_) => WriteKeepsInv(job, s, step);
    case MarkAborted => WriteKeepsInv(job, s, step);
    case SendDone(sent) => DoneKeepsInv(job, s, sent);
    case Disconnect =>
    case Release => ReleaseKeepsInv(job, s);
  }

  lemma {:induction false} ReachableInv(job: Job, steps: seq<Step>)
    requires Exec(job, steps).Some?
    ensures Inv(job, Exec(job, steps).value)
  {
    if steps != [] {
      var before := steps[..|steps| - 1];
      ReachableInv(job, before);
      StepKeepsInv(job, Exec(job, before).value, steps[|steps| - 1]);
    }
  }

  /** In every reachable state the tokens written, then the at most one that has left the queue, then
      the queue, are the tokens pushed; and those are the generated ones, as far as the generator got,
      unless the stream was aborted. */
  lemma TokensConserved(job: Job, steps: seq<Step>)
    requires Exec(job, steps).Some?
    ensures var s := Exec(job, steps).value;
            && s.written + InFlight(s) + s.sh.tokens == s.pushed <= s.generated <= Generated(job)
            && |InFlight(s)| <= 1
            && (!s.sh.aborted ==> s.pushed == s.generated)
            && (s.gen.Finished? ==> s.generated == Generated(job))
            && (s.ended ==> s.written == Generated(job))
  {
    ReachableInv(job, steps);
    var s := Exec(job, steps).value;
    if s.gen.Looping? {
      assert s.generated <= s.generated + Pieces(job, s.gen.i);
    }
  }

  lemma EndedStays(job: Job, s: System, step: Step)
    requires Inv(job, s) && s.ended && Enabled(s, step)
    ensures var s' := Apply(job, s, step);
            s'.ended && s'.written == s.written && s'.tail == s.tail
  {}

  /** The final record comes once and last: after it no run sends another byte. */
  lemma {:induction false} DoneComesLast(job: Job, steps: seq<Step>, more: seq<Step>)
    requires Exec(job, steps).Some? && Exec(job, steps).value.ended
    requires Exec(job, steps + more).Some?
    ensures var s, s' := Exec(job, steps).value, Exec(job, steps + more).value;
            s'.ended && s'.written == s.written && s'.tail == s.tail
    decreases |more|
  {
    if more == [] {
      assert steps + more == steps;
    } else {
      var n := |more| - 1;
      assert (steps + more)[..|steps + more| - 1] == steps + more[..n];
      DoneComesLast(job, steps, more[..n]);
      ReachableInv(job, steps + more[..n]);
      EndedStays(job, Exec(job, steps + more[..n]).value, more[n]);
    }
  }

  // ---- after an abort ----

  /** Over runs: the stream is aborted exactly from the step on that says so, after a failed write or by
      the completion callback; and it is, whenever a token is lost or the provider is done with. */
  lemma {:induction false} AbortedExactly(job: Job, steps: seq<Step>)
    requires Exec(job, steps).Some?
    ensures var s := Exec(job, steps).value;
            && (s.sh.aborted <==> MarkAborted in steps || Release in steps)
            && (s.prov.Released? || s.lost != [] ==> s.sh.aborted)
  {
    ReachableInv(job, steps);
    if steps != [] {
      var n := |steps| - 1;
      AbortedExactly(job, steps[..n]);
      AbortingSteps(job, Exec(job, steps[..n]).value, steps[n]);
      assert steps == steps[..n] + [steps[n]];
    }
  }

  lemma AbortingSteps(job: Job, s: System, step: Step)
    requires Enabled(s, step)
    ensures Apply(job, s, step).sh.aborted <==> s.sh.aborted || step == MarkAborted || step == Release
  {}

  lemma AbortedStep(job: Job, s: System, step: Step)
    requires Inv(job, s) && s.sh.aborted && Enabled(s, step)
    ensures var s' := Apply(job, s, step);
            && s'.sh.aborted && s'.sh.tokens == s.sh.tokens && s'.pushed == s.pushed
            && s'.written == s.written && s'.tail == s.tail
  {}

  /** However much the generator still produces, after an abort nothing joins the queue, nothing leaves
      it, and nothing more is sent. */
  lemma {:induction false} AbortFreezes(job: Job, steps: seq<Step>, more: seq<Step>)
    requires Exec(job, steps).Some? && Exec(job, steps).value.sh.aborted
    requires Exec(job, steps + more).Some?
    ensures var s, s' := Exec(job, steps).value, Exec(job, steps + more).value;
            && s'.sh.aborted && s'.sh.tokens == s.sh.tokens && s'.pushed == s.pushed
            && s'.written == s.written && s'.tail == s.tail
    decreases |more|
  {
    if more == [] {
      assert steps + more == steps;
    } else {
      var n := |more| - 1;
      assert (steps + more)[..|steps + more| - 1] == steps + more[..n];
      AbortFreezes(job, steps, more[..n]);
      ReachableInv(job, steps + more[..n]);
      AbortedStep(job, Exec(job, steps + more[..n]).value, more[n]);
    }
  }

  // ---- progress ----

  /** Every provider call makes progress: once a call has been made, the provider is ready for the
      next one, or at the head of its drain loop, only after another token has been written. */
  lemma {:induction false} CallsProgress(job: Job, steps: seq<Step>, more: seq<Step>)
    requires Exec(job, steps).Some? && Exec(job, steps + more).Some?
    ensures var s, s' := Exec(job, steps).value, Exec(job, steps + more).value;
            && s.written <= s'.written
            && (Call in more && (s'.prov.Calling? || s'.prov.Relocking?) ==> |s.written| < |s'.written|)
    decreases |more|
  {
    if more == [] {
      assert steps + more == steps;
    } else {
      var n := |more| - 1;
      var before := more[..n];
      assert (steps + more)[..|steps + more| - 1] == steps + before && more == before + [more[n]];
      CallsProgress(job, steps, before);
      StepProgresses(job, Exec(job, steps + before).value, more[n]);
    }
  }

  lemma StepProgresses(job: Job, s: System, step: Step)
    requires Enabled(s, step)
    ensures var s' := Apply(job, s, step);
            && s.written <= s'.written
            && (step == Call ==> !s'.prov.Calling? && !s'.prov.Relocking?)
            && (s'.prov.Calling? ==> s.prov.Calling? || s.prov.Relocking?)
            && (s'.prov.Relocking? ==> s.prov.Relocking? || |s.written| < |s'.written|)
  {
    CallConsumes(s.sh);
  }

  // ---- deadlock freedom and termination ----

  predicate Terminal(s: System)
  {
    s.gen.Finished? && (s.prov.Released? || s.prov.Thrown?)
  }

  /** The step a thread takes by itself when nothing goes wrong; `None` when it waits or is over. */
  function GeneratorStep(s: System): Option<Step>
  {
    match s.gen
    case Preparing => Some(Prepare)
    case Looping(_, _) => Some(Iterate)
    case Publishing(_) => Some(Publish)
    case Finished => None
  }

  function ProviderStep(s: System): Option<Step>
  {
    match s.prov
    case Calling => Some(Call)
    case Asleep => None
    case Awake => Some(Recheck)
    case Writing(_) => Some(WriteOk)
    case Failing(_) => Some(MarkAborted)
    case Relocking => Some(Relock)
    case Ending(text) => Some(SendDone(|DoneLine(text)|))
    case Returned => Some(Release)
    case Released => None
    case Thrown => None
  }

  /** In no reachable state does the provider sleep with nobody left to wake it: some thread can move
      until both are over, and no notification is ever missed. */
  lemma DeadlockFreedom(job: Job, steps: seq<Step>)
    requires Exec(job, steps).Some?
    ensures var s := Exec(job, steps).value;
            && (s.prov.Asleep? ==> !Wakes(s.sh) && !s.gen.Finished?)
            && (GeneratorStep(s).Some? ==> Enabled(s, GeneratorStep(s).value))
            && (ProviderStep(s).Some? ==> Enabled(s, ProviderStep(s).value))
            && (GeneratorStep(s).None? && ProviderStep(s).None? <==> Terminal(s))
  {
    ReachableInv(job, steps);
  }

  function GeneratorRank(job: Job, g: Generator): nat
  {
    match g
    case Preparing => Limit(job) + 3
    case Looping(i, _) => if i <= Limit(job) then Limit(job) - i + 2 else 2
    case Publishing(_) => 1
    case Finished => 0
  }

  function ProviderRank(p: Provider): nat
  {
    match p
    case Writing(_) => 6
    case Relocking => 5
    case Calling => 4
    case Awake => 4
    case Failing(_) => 3
    case Ending(_) => 3
    case Returned => 2
    case _ => 0
  }

  function Measure(job: Job, s: System): nat
  {
    8 * GeneratorRank(job, s.gen) + 3 * |s.sh.tokens| + ProviderRank(s.prov)
  }

  lemma OnTokenCosts(s: System, piece: string)
    ensures var s' := OnToken(s, piece);
            3 * |s'.sh.tokens| + ProviderRank(s'.prov) <= 3 * |s.sh.tokens| + ProviderRank(s.prov) + 7
  {}

  lemma IterateDecreases(job: Job, s: System)
    requires GeneratorInv(job, s) && s.gen.Looping?
    ensures Measure(job, IterateStep(job, s)) < Measure(job, s)
  {
    var i := s.gen.i;
    if i < Limit(job) && job.samples(i).Sampled? {
      OnTokenCosts(s, job.samples(i).piece);
    }
  }

  lemma FollowDecreases(job: Job, s: System, next: (Shared, Action))
    requires Inv(job, s)
    requires s.prov.Calling? || s.prov.Awake? || s.prov.Relocking?
    requires next == Enter(s.sh) || (s.prov.Relocking? && next == Drain(s.sh))
    ensures Measure(job, Follow(s, next)) < Measure(job, s)
  {}

  predicate Computes(step: Step)
  {
    step.Iterate? || step.Call? || step.Recheck? || step.Relock?
  }

  lemma OtherDecreases(job: Job, s: System, step: Step)
    requires Enabled(s, step) && !Computes(step)
    ensures step == SpuriousWake ==> Measure(job, Apply(job, s, step)) == Measure(job, s) + 4
    ensures step != SpuriousWake ==> Measure(job, Apply(job, s, step)) < Measure(job, s)
  {}

  lemma StepDecreases(job: Job, s: System, step: Step)
    requires Inv(job, s) && Enabled(s, step)
    ensures step == SpuriousWake ==> Measure(job, Apply(job, s, step)) == Measure(job, s) + 4
    ensures step != SpuriousWake ==> Measure(job, Apply(job, s, step)) < Measure(job, s)
  {
    if !Computes(step) {
      OtherDecreases(job, s, step);
    } else if step.Iterate? {
      IterateDecreases(job, s);
    } else {
      FollowDecreases(job, s, if step.Relock? then Drain(s.sh) else Enter(s.sh));
    }
  }

  function SpuriousWakes(steps: seq<Step>): nat
  {
    if steps == [] then 0
    else SpuriousWakes(steps[..|steps| - 1]) + if steps[|steps| - 1] == SpuriousWake then 1 else 0
  }

  /** Every run is finite: its length is bounded by the token limit and the spurious wake-ups alone. */
  lemma {:induction false} RunsAreBounded(job: Job, steps: seq<Step>)
    requires Exec(job, steps).Some?
    ensures |steps| + Measure(job, Exec(job, steps).value) <= 8 * Limit(job) + 28 + 5 * SpuriousWakes(steps)
  {
    if steps != [] {
      var before := steps[..|steps| - 1];
      RunsAreBounded(job, before);
      ReachableInv(job, before);
      StepDecreases(job, Exec(job, before).value, steps[|steps| - 1]);
    }
  }

  // ---- how a run ends ----

  function Records(tokens: seq<string>): (r: seq<string>)
    ensures |r| == |tokens| && forall i | 0 <= i < |r| :: r[i] == TokenRecord(tokens[i])
  {
    seq(|tokens|, i requires 0 <= i < |tokens| => TokenRecord(tokens[i]))
  }

  /** The bytes sent so far. */
  function Wire(s: System): string
  {
    Join(Records(s.written)) + s.tail
  }

  /** A finished run whose connection held is complete exactly when everything generated is valid
      UTF-8; otherwise the provider leaves by an exception and no final record is ever sent. */
  lemma CompletionNeedsUtf8(job: Job, steps: seq<Step>)
    requires Exec(job, steps).Some? && Terminal(Exec(job, steps).value) && !Exec(job, steps).value.severed
    ensures var s := Exec(job, steps).value;
            && (s.ended <==> AllUtf8(Generated(job)) && Utf8(FinalText(job)))
            && (s.ended <==> !s.prov.Thrown?)
            && (s.ended ==> Wire(s) == Join(Records(Generated(job))) + DoneLine(FinalText(job)))
  {
    ReachableInv(job, steps);
    var s := Exec(job, steps).value;
    if s.ended {
      assert s.written + InFlight(s) == Generated(job);
    } else {
      assert s.prov.Thrown? && !s.sh.aborted;
      if s.sh.tokens != [] {
        var k := |s.written + InFlight(s)|;
        assert Generated(job)[k] == s.sh.tokens[0];
      }
    }
  }

  /** When nothing is thrown the condition is about the pieces alone. */
  lemma PiecesDecide(job: Job)
    requires ExceptionOf(job).None?
    ensures AllUtf8(Generated(job)) && Utf8(FinalText(job)) <==> AllUtf8(Generated(job))
  {
    FinalTextIsConcat(job);
    if AllUtf8(Generated(job)) {
      Utf8Concat(Generated(job));
    }
  }

  /** A character whose two bytes come in two pieces: the text is valid, the stream is not. */
  function SplitSamples(i: nat): Sample
  {
    if i == 0 then Sampled(['\U{c3}'], true) else if i == 1 then Sampled(['\U{a9}'], true) else EndOfGeneration
  }

  lemma SplitCharacterBreaksTheStream()
    ensures var job := Job(2, Ready, SplitSamples);
            && Generated(job) == [['\U{c3}'], ['\U{a9}']]
            && FinalText(job) == ['\U{c3}', '\U{a9}'] && Utf8(FinalText(job))
            && Exec(job, [Prepare, Iterate, Call]).Some?
            && Exec(job, [Prepare, Iterate, Call]).value.prov.Thrown?
  {
    var job := Job(2, Ready, SplitSamples);
    var a, b := ['\U{c3}'], ['\U{a9}'];
    assert Pieces(job, 1) == [b] + Pieces(job, 2) == [b];
    assert Pieces(job, 0) == [a] + Pieces(job, 1) == [a, b];
    assert Raised(job, 0) == Raised(job, 1) == Raised(job, 2) == None;
    FinalTextIsConcat(job);
    assert [a, b][1..] == [b] && [b][1..] == [];
    assert Concat([a, b]) == a + Concat([b]) == a + (b + Concat([]));
    assert FinalText(job) == ['\U{c3}', '\U{a9}'];
    assert SequenceLength(FinalText(job)) == 2 && FinalText(job)[2..] == "";
    SplitCharacterRun(job);
  }

  lemma SplitCharacterRun(job: Job)
    requires job == Job(2, Ready, SplitSamples)
    ensures Exec(job, [Prepare, Iterate, Call]).Some?
    ensures Exec(job, [Prepare, Iterate, Call]).value.prov.Thrown?
  {
    var s1 := Apply(job, INITIAL, Prepare);
    var s2 := Apply(job, s1, Iterate);
    assert [Prepare, Iterate, Call][..2] == [Prepare, Iterate];
    assert [Prepare, Iterate][..1] == [Prepare];
    assert [Prepare][..0] == [];
    assert Exec(job, [Prepare]) == Some(s1);
    assert Exec(job, [Prepare, Iterate]) == Some(s2);
    assert s2.sh.tokens[0] == ['\U{c3}'] && SequenceLength(s2.sh.tokens[0]) == 0;
  }
}
