/** The interactive chat: the history it keeps and the markers it strips from replies. */
module Chat {
  import opened Prelude

  // ---- stripping markers ----

  const MARKERS := ["<|im_start|>", "<|im_end|>", "<s>", "</s>", "[INST]", "[/INST]"]

  predicate At(s: string, m: string, i: nat)
  {
    i + |m| <= |s| && s[i..i + |m|] == m
  }

  /** `reply.find(m)`: the first occurrence at or after `from`. */
  function FindText(s: string, m: string, from: nat): (r: Option<nat>)
    ensures r.Some? ==> from <= r.value && At(s, m, r.value) && forall j | from <= j < r.value :: !At(s, m, j)
    ensures r.None? ==> forall j | from <= j :: !At(s, m, j)
    decreases |s| - from
  {
    if from + |m| > |s| then None
    else if At(s, m, from) then Some(from)
    else FindText(s, m, from + 1)
  }

  ghost predicate FreeOf(s: string, m: string)
  {
    forall j: nat :: !At(s, m, j)
  }

  ghost predicate Clean(s: string, markers: seq<string>)
  {
    forall m | m in markers :: FreeOf(s, m)
  }

  function Without(s: string, m: string, i: nat): string
    requires At(s, m, i)
  {
    s[..i] + s[i + |m|..]
  }

  /** Erases the first occurrence until there is none. */
  function EraseAll(s: string, m: string): string
    requires m != ""
    decreases |s|
  {
    match FindText(s, m, 0)
    case None => s
    case Some(i) => EraseAll(Without(s, m, i), m)
  }

  function StripAll(s: string, markers: seq<string>): string
    requires "" !in markers
    decreases markers
  {
    if markers == [] then s else StripAll(EraseAll(s, markers[0]), markers[1..])
  }

  method Strip(reply: string) returns (r: string)
    ensures r == StripAll(reply, MARKERS)
  {
    r := reply;
    for k := 0 to |MARKERS|
      invariant StripAll(r, MARKERS[k..]) == StripAll(reply, MARKERS)
    {
      var m := MARKERS[k];
      assert MARKERS[k..][0] == m && MARKERS[k..][1..] == MARKERS[k + 1..];
      ghost var before := r;
      var pos := FindText(r, m, 0);
      while pos.Some?
        invariant pos == FindText(r, m, 0)
        invariant EraseAll(r, m) == EraseAll(before, m)
        decreases |r|
      {
        r := Without(r, m, pos.value);
        pos := FindText(r, m, 0);
      }
    }
  }

  /** What remains of `s` when some of its characters are left out. */
  predicate Subsequence(a: string, s: string)
  {
    a == "" || (s != "" && ((a[0] == s[0] && Subsequence(a[1..], s[1..])) || Subsequence(a, s[1..])))
  }

  lemma {:induction false} SubsequenceSelf(s: string)
    ensures Subsequence(s, s)
  {
    if s != "" {
      SubsequenceSelf(s[1..]);
    }
  }

  lemma {:induction false} SubsequenceTrans(a: string, b: string, c: string)
    requires Subsequence(a, b) && Subsequence(b, c)
    ensures Subsequence(a, c)
    decreases |c|
  {
    if a != "" && b != "" {
      if b[0] == c[0] && Subsequence(b[1..], c[1..]) {
        if a[0] == b[0] && Subsequence(a[1..], b[1..]) {
          SubsequenceTrans(a[1..], b[1..], c[1..]);
        } else {
          SubsequenceTrans(a, b[1..], c[1..]);
        }
      } else {
        SubsequenceTrans(a, b, c[1..]);
      }
    }
  }

  lemma {:induction false} WithoutIsSubsequence(p: string, m: string, q: string)
    ensures Subsequence(p + q, p + m + q)
    decreases |p| + |m|
  {
    var s := p + m + q;
    if p != "" {
      WithoutIsSubsequence(p[1..], m, q);
      assert (p + q)[1..] == p[1..] + q && s[1..] == p[1..] + m + q;
    } else if m != "" {
      WithoutIsSubsequence("", m[1..], q);
      assert "" + q == q && s[1..] == "" + m[1..] + q;
    } else {
      assert "" + q == q && s == q;
      SubsequenceSelf(q);
    }
  }

  lemma {:induction false} EraseAllMeans(s: string, m: string)
    requires m != ""
    ensures Subsequence(EraseAll(s, m), s) && FreeOf(EraseAll(s, m), m)
    ensures FreeOf(s, m) <==> |EraseAll(s, m)| == |s|
    ensures FreeOf(s, m) ==> EraseAll(s, m) == s
    ensures |EraseAll(s, m)| <= |s|
    decreases |s|
  {
    match FindText(s, m, 0)
    case None => SubsequenceSelf(s);
    case Some(i) =>
      var t := Without(s, m, i);
      EraseAllMeans(t, m);
      assert s == s[..i] + m + s[i + |m|..];
      WithoutIsSubsequence(s[..i], m, s[i + |m|..]);
      SubsequenceTrans(EraseAll(s, m), t, s);
  }

  lemma {:induction false} StripAllMeans(s: string, markers: seq<string>)
    requires "" !in markers
    ensures Subsequence(StripAll(s, markers), s)
    ensures markers != [] ==> FreeOf(StripAll(s, markers), markers[|markers| - 1])
    ensures Clean(s, markers) <==> StripAll(s, markers) == s
    ensures |StripAll(s, markers)| <= |s|
    decreases markers
  {
    if markers == [] {
      SubsequenceSelf(s);
    } else {
      var t := EraseAll(s, markers[0]);
      EraseAllMeans(s, markers[0]);
      StripAllMeans(t, markers[1..]);
      SubsequenceTrans(StripAll(t, markers[1..]), t, s);
    }
  }

  /** Stripping only leaves characters out, leaves no `[/INST]`, and changes nothing exactly when no
      marker is there. */
  lemma StripMeans(reply: string)
    ensures Subsequence(StripAll(reply, MARKERS), reply)
    ensures FreeOf(StripAll(reply, MARKERS), "[/INST]")
    ensures Clean(reply, MARKERS) <==> StripAll(reply, MARKERS) == reply
  {
    StripAllMeans(reply, MARKERS);
  }

  // ---- when stripping leaves no marker ----

  predicate Opener(c: char) { c == '<' || c == '[' }

  predicate Closer(c: char) { c == '>' || c == ']' }

  /** Opens at its start only and closes at its end only, so two markers cannot overlap. */
  predicate Bracketed(m: string)
  {
    && |m| >= 2 && Opener(m[0]) && Closer(m[|m| - 1])
    && (forall k | 0 < k < |m| :: !Opener(m[k]))
    && (forall k | 0 <= k < |m| - 1 :: !Closer(m[k]))
  }

  predicate AllBracketed(markers: seq<string>)
  {
    forall m | m in markers :: Bracketed(m)
  }

  /** Only the first character of an occurrence opens, only the last closes. */
  lemma Inner(s: string, m: string, i: nat)
    requires Bracketed(m) && At(s, m, i)
    ensures Opener(s[i]) && forall p | i < p < i + |m| :: !Opener(s[p])
    ensures Closer(s[i + |m| - 1]) && forall p | i <= p < i + |m| - 1 :: !Closer(s[p])
  {
    assert forall p | i <= p < i + |m| :: s[p] == s[i..i + |m|][p - i] == m[p - i];
  }

  /** Two occurrences of different markers are apart. */
  lemma NoOverlap(s: string, a: string, i: nat, b: string, j: nat)
    requires Bracketed(a) && Bracketed(b) && a != b && At(s, a, i) && At(s, b, j)
    ensures i + |a| <= j || j + |b| <= i
  {
    Inner(s, a, i);
    Inner(s, b, j);
    assert Opener(s[i]) && Opener(s[j]) && Closer(s[i + |a| - 1]) && Closer(s[j + |b| - 1]);
    assert i == j ==> |a| == |b|;
  }

  /** A marker that is there stays there when another one is erased. */
  lemma ErasureKeeps(s: string, m: string, i: nat, a: string)
    requires Bracketed(m) && Bracketed(a) && a != m && At(s, m, i) && !FreeOf(s, a)
    ensures !FreeOf(Without(s, m, i), a)
  {
    var j: nat :| At(s, a, j);
    NoOverlap(s, a, j, m, i);
    var t := Without(s, m, i);
    if j + |a| <= i {
      assert t[j..j + |a|] == s[j..j + |a|];
      assert At(t, a, j);
    } else {
      assert t[j - |m|..j - |m| + |a|] == s[j..j + |a|];
      assert At(t, a, j - |m|);
    }
  }

  lemma {:induction false} EraseAllKeeps(s: string, m: string, a: string)
    requires Bracketed(m) && Bracketed(a) && a != m && !FreeOf(s, a)
    ensures !FreeOf(EraseAll(s, m), a)
    decreases |s|
  {
    var pos := FindText(s, m, 0);
    if pos.Some? {
      ErasureKeeps(s, m, pos.value, a);
      EraseAllKeeps(Without(s, m, pos.value), m, a);
    }
  }

  lemma {:induction false} StripAllKeeps(s: string, markers: seq<string>, a: string)
    requires AllBracketed(markers) && Bracketed(a) && a !in markers && !FreeOf(s, a)
    ensures !FreeOf(StripAll(s, markers), a)
    decreases markers
  {
    if markers != [] {
      EraseAllKeeps(s, markers[0], a);
      StripAllKeeps(EraseAll(s, markers[0]), markers[1..], a);
    }
  }

  /** Erasing `m` at `i` joins its two sides into one of the `earlier` markers. */
  ghost predicate Joins(s: string, m: string, i: nat, earlier: seq<string>)
    requires At(s, m, i)
  {
    exists a, j: nat :: a in earlier && j < i < j + |a| && At(Without(s, m, i), a, j)
  }

  /** No erasure of `m`, first occurrence by first occurrence, does that. */
  ghost predicate NeverJoins(s: string, m: string, earlier: seq<string>)
    requires m != ""
    decreases |s|
  {
    match FindText(s, m, 0)
    case None => true
    case Some(i) => !Joins(s, m, i, earlier) && NeverJoins(Without(s, m, i), m, earlier)
  }

  /** Nor does any erasure of the markers `todo`, in turn, when those of `done` have been erased. */
  ghost predicate NothingMade(s: string, done: seq<string>, todo: seq<string>)
    requires "" !in todo
    decreases todo
  {
    todo == [] ||
    (NeverJoins(s, todo[0], done) && NothingMade(EraseAll(s, todo[0]), done + [todo[0]], todo[1..]))
  }

  /** An occurrence after an erasure was there before it, or lies across the seam. */
  lemma SeenBefore(s: string, m: string, i: nat, a: string, j: nat)
    requires At(s, m, i) && At(Without(s, m, i), a, j)
    ensures j + |a| <= i ==> At(s, a, j)
    ensures i <= j ==> At(s, a, j + |m|)
    ensures j < i < j + |a| ==> a[i - 1 - j] == s[i - 1]
  {
    var t := Without(s, m, i);
    if j + |a| <= i {
      assert s[j..j + |a|] == t[j..j + |a|];
    } else if i <= j {
      assert t[j..] == s[j + |m|..];
      assert t[j..][..|a|] == t[j..j + |a|] && s[j + |m|..][..|a|] == s[j + |m|..j + |m| + |a|];
    } else {
      assert t[j..j + |a|][i - 1 - j] == t[i - 1];
    }
  }

  lemma OnlyAcross(s: string, m: string, i: nat, earlier: seq<string>)
    requires At(s, m, i) && Clean(s, earlier) && "" !in earlier
    ensures forall a, j: nat | a in earlier && At(Without(s, m, i), a, j) :: j < i < j + |a|
  {
    forall a, j: nat | a in earlier && At(Without(s, m, i), a, j) ensures j < i < j + |a| {
      SeenBefore(s, m, i, a, j);
    }
  }

  lemma JoinOrClean(s: string, m: string, i: nat, earlier: seq<string>)
    requires At(s, m, i) && Clean(s, earlier) && "" !in earlier
    ensures Clean(Without(s, m, i), earlier) <==> !Joins(s, m, i, earlier)
  {
    OnlyAcross(s, m, i, earlier);
  }

  lemma {:induction false} EraseAllClean(s: string, m: string, earlier: seq<string>)
    requires Bracketed(m) && AllBracketed(earlier) && m !in earlier && Clean(s, earlier)
    ensures Clean(EraseAll(s, m), earlier) <==> NeverJoins(s, m, earlier)
    decreases |s|
  {
    var pos := FindText(s, m, 0);
    if pos.Some? {
      var t := Without(s, m, pos.value);
      JoinOrClean(s, m, pos.value, earlier);
      if Clean(t, earlier) {
        EraseAllClean(t, m, earlier);
      } else {
        var a :| a in earlier && !FreeOf(t, a);
        EraseAllKeeps(t, m, a);
      }
    }
  }

  ghost predicate Distinct(markers: seq<string>)
  {
    forall i, j | 0 <= i < j < |markers| :: markers[i] != markers[j]
  }

  lemma {:induction false} CleanIffNothingMade(s: string, done: seq<string>, todo: seq<string>)
    requires AllBracketed(done + todo) && Distinct(done + todo) && "" !in todo && Clean(s, done)
    ensures Clean(StripAll(s, todo), done + todo) <==> NothingMade(s, done, todo)
    decreases todo
  {
    if todo == [] {
      assert done + todo == done;
    } else {
      var m, t := todo[0], EraseAll(s, todo[0]);
      assert (done + todo)[|done|] == m && (done + [m]) + todo[1..] == done + todo;
      assert forall i | 0 <= i < |done| :: (done + todo)[i] == done[i];
      EraseAllMeans(s, m);
      EraseAllClean(s, m, done);
      if Clean(t, done) {
        assert Clean(t, done + [m]);
        CleanIffNothingMade(t, done + [m], todo[1..]);
      } else {
        var a :| a in done && !FreeOf(t, a);
        StillThere(t, done, todo, a);
      }
    }
  }

  lemma StillThere(t: string, done: seq<string>, todo: seq<string>, a: string)
    requires AllBracketed(done + todo) && Distinct(done + todo) && todo != [] && "" !in todo
    requires a in done && !FreeOf(t, a)
    ensures !Clean(StripAll(t, todo[1..]), done + todo)
  {
    var i :| 0 <= i < |done| && done[i] == a;
    assert (done + todo)[i] == a;
    forall k | 0 <= k < |todo[1..]| ensures todo[1..][k] != a && todo[1..][k] in done + todo {
      assert (done + todo)[|done| + k + 1] == todo[1..][k];
    }
    StripAllKeeps(t, todo[1..], a);
  }

  lemma ImMarkers()
    ensures Bracketed("<|im_start|>") && Bracketed("<|im_end|>")
  {}

  lemma SentenceMarkers()
    ensures Bracketed("<s>") && Bracketed("</s>")
  {}

  lemma InstMarkers()
    ensures Bracketed("[INST]") && Bracketed("[/INST]")
  {}

  lemma SixMarkers(a: string, b: string, c: string, d: string, e: string, f: string)
    requires Bracketed(a) && Bracketed(b) && Bracketed(c) && Bracketed(d) && Bracketed(e) && Bracketed(f)
    requires |c| < |d| < |e| < |f| < |b| < |a|
    ensures AllBracketed([a, b, c, d, e, f]) && Distinct([a, b, c, d, e, f])
  {}

  lemma MarkersAreBracketed()
    ensures AllBracketed(MARKERS) && Distinct(MARKERS)
  {
    ImMarkers();
    SentenceMarkers();
    InstMarkers();
    SixMarkers("<|im_start|>", "<|im_end|>", "<s>", "</s>", "[INST]", "[/INST]");
  }

  /** Exactly when a stripped reply has no marker left: when no erasure of a marker joins what stands
      before and after it into a marker that was looked for earlier. */
  lemma StripLeavesNone(reply: string)
    ensures Clean(StripAll(reply, MARKERS), MARKERS) <==> NothingMade(reply, [], MARKERS)
  {
    MarkersAreBracketed();
    assert [] + MARKERS == MARKERS;
    CleanIffNothingMade(reply, [], MARKERS);
  }

  /** Before no marker in the reply stands a character that a marker has before its last one. */
  ghost predicate Apart(s: string, markers: seq<string>)
  {
    forall m, p: nat | m in markers && 0 < p && At(s, m, p) :: !Inside(s[p - 1], markers)
  }

  ghost predicate Inside(c: char, markers: seq<string>)
  {
    exists a, k: nat :: a in markers && k + 1 < |a| && a[k] == c
  }

  lemma JoinsInside(s: string, m: string, i: nat, markers: seq<string>)
    requires At(s, m, i)
    ensures Joins(s, m, i, markers) ==> i > 0 && Inside(s[i - 1], markers)
  {
    if Joins(s, m, i, markers) {
      var a, j: nat :| a in markers && j < i < j + |a| && At(Without(s, m, i), a, j);
      SeenBefore(s, m, i, a, j);
    }
  }

  lemma ApartNeverJoins(s: string, m: string, i: nat, markers: seq<string>)
    requires Apart(s, markers) && m in markers && At(s, m, i)
    ensures !Joins(s, m, i, markers)
  {
    JoinsInside(s, m, i, markers);
  }

  lemma ErasureStaysApart(s: string, m: string, i: nat, markers: seq<string>)
    requires Apart(s, markers) && m in markers && At(s, m, i)
    ensures Apart(Without(s, m, i), markers)
  {
    var t := Without(s, m, i);
    ApartNeverJoins(s, m, i, markers);
    forall a, p: nat | a in markers && 0 < p && At(t, a, p) ensures !Inside(t[p - 1], markers) {
      SeenBefore(s, m, i, a, p);
    }
  }

  lemma {:induction false} EraseAllStaysApart(s: string, m: string, markers: seq<string>, earlier: seq<string>)
    requires Apart(s, markers) && m in markers && m != "" && earlier <= markers
    ensures NeverJoins(s, m, earlier) && Apart(EraseAll(s, m), markers)
    decreases |s|
  {
    var pos := FindText(s, m, 0);
    if pos.Some? {
      ApartNeverJoins(s, m, pos.value, markers);
      ErasureStaysApart(s, m, pos.value, markers);
      EraseAllStaysApart(Without(s, m, pos.value), m, markers, earlier);
    }
  }

  lemma {:induction false} ApartMakesNothing(s: string, done: seq<string>, todo: seq<string>)
    requires Apart(s, done + todo) && "" !in todo
    ensures NothingMade(s, done, todo)
    decreases todo
  {
    if todo != [] {
      var all, m := done + todo, todo[0];
      assert all[|done|] == m && (done + [m]) + todo[1..] == all;
      EraseAllStaysApart(s, m, all, done);
      ApartMakesNothing(EraseAll(s, m), done + [m], todo[1..]);
    }
  }

  /** So it has none left if, in the reply as it came, no marker follows a character of a marker's
      beginning: if each stands first, or after a space, a line break, a full stop or a capital other
      than I, N, S and T. */
  lemma ApartStripsClean(reply: string)
    requires Apart(reply, MARKERS)
    ensures Clean(StripAll(reply, MARKERS), MARKERS)
  {
    assert [] + MARKERS == MARKERS;
    ApartMakesNothing(reply, [], MARKERS);
    StripLeavesNone(reply);
  }

  // ---- a reply that strips to a marker ----

  lemma TooShortForMarker(s: string, m: string)
    requires |s| < |m|
    ensures EraseAll(s, m) == s
  {}

  lemma NoSuchPair(s: string, m: string)
    requires |m| >= 2 && forall j: nat | j + 1 < |s| :: s[j] != m[0] || s[j + 1] != m[1]
    ensures EraseAll(s, m) == s
  {}

  lemma EraseInst(s: string, t: string)
    requires s == "<[INST]s>" && t == "<s>"
    ensures EraseAll(s, "[INST]") == t
  {
    var m := "[INST]";
    assert s[1..7] == m && s[0..6][0] != m[0];
    assert FindText(s, m, 0) == FindText(s, m, 1) == Some(1);
    assert Without(s, m, 1) == s[..1] + s[7..] == t;
    TooShortForMarker(t, m);
  }

  lemma FirstFourAbsent(s: string)
    requires s == "<[INST]s>"
    ensures EraseAll(s, MARKERS[0]) == EraseAll(s, MARKERS[1]) == s
    ensures EraseAll(s, MARKERS[2]) == EraseAll(s, MARKERS[3]) == s
  {
    TooShortForMarker(s, MARKERS[0]);
    TooShortForMarker(s, MARKERS[1]);
    NoSuchPair(s, MARKERS[2]);
    NoSuchPair(s, MARKERS[3]);
  }

  /** Taking out a later marker can make an earlier one: these markers are not all gone. */
  lemma StrippingCanMakeAMarker()
    ensures StripAll("<[INST]s>", MARKERS) == "<s>"
  {
    var s, t := "<[INST]s>", "<s>";
    FirstFourAbsent(s);
    EraseInst(s, t);
    TooShortForMarker(t, MARKERS[5]);
    StripSix(s, t);
  }

  lemma StripSix(s: string, t: string)
    requires EraseAll(s, MARKERS[0]) == EraseAll(s, MARKERS[1]) == s
    requires EraseAll(s, MARKERS[2]) == EraseAll(s, MARKERS[3]) == s
    requires EraseAll(s, MARKERS[4]) == t == EraseAll(t, MARKERS[5])
    ensures StripAll(s, MARKERS) == t
  {}

  // ---- the history ----

  datatype Role = User | Assistant

  datatype Message = Message(role: Role, content: string)

  /** The server's answer to one request: no connection, an HTTP error, a body that cannot be read, an
      error object, a reply, or a body with neither choices nor error, which counts as an empty reply. */
  datatype Answer = NoConnection | HttpError | Unreadable | ServerError | Reply(content: string) | Neither

  /** A line typed, with the answer it would get if it is sent. */
  datatype Input = Line(text: string, answer: Answer)

  function ReplyOf(a: Answer): Option<string>
  {
    match a
    case Reply(content) => Some(content)
    case Neither => Some("")
    case _ => None
  }

  predicate IsQuit(text: string) { text == "/bye" || text == "/exit" }

  predicate IsSent(text: string) { text != "" && !IsQuit(text) && text != "/reset" && text != "/help" }

  /** What one line does to the exchanges so far. */
  function Turn(sofar: seq<(string, string)>, input: Input): seq<(string, string)>
  {
    if input.text == "/reset" then []
    else if IsSent(input.text) && ReplyOf(input.answer).Some? then
      sofar + [(input.text, StripAll(ReplyOf(input.answer).value, MARKERS))]
    else sofar
  }

  function Turns(sofar: seq<(string, string)>, inputs: seq<Input>): seq<(string, string)>
    decreases inputs
  {
    if inputs == [] then sofar else Turns(Turn(sofar, inputs[0]), inputs[1..])
  }

  /** The exchanges that succeeded since the last reset. */
  function Exchanges(inputs: seq<Input>): seq<(string, string)>
  {
    Turns([], inputs)
  }

  lemma {:induction false} TurnsAppend(sofar: seq<(string, string)>, a: seq<Input>, b: seq<Input>)
    ensures Turns(sofar, a + b) == Turns(Turns(sofar, a), b)
    decreases a
  {
    if a == [] {
      assert a + b == b;
    } else {
      assert (a + b)[1..] == a[1..] + b;
      TurnsAppend(Turn(sofar, a[0]), a[1..], b);
    }
  }

  lemma ExchangesStep(inputs: seq<Input>, i: nat)
    requires i < |inputs|
    ensures Exchanges(inputs[..i + 1]) == Turn(Exchanges(inputs[..i]), inputs[i])
  {
    assert inputs[..i + 1] == inputs[..i] + [inputs[i]];
    TurnsAppend([], inputs[..i], [inputs[i]]);
  }

  function Messages(e: (string, string)): seq<Message>
  {
    [Message(User, e.0), Message(Assistant, e.1)]
  }

  function Transcript(exchanges: seq<(string, string)>): seq<Message>
  {
    if exchanges == [] then [] else
      Transcript(exchanges[..|exchanges| - 1]) + Messages(exchanges[|exchanges| - 1])
  }

  lemma TranscriptOne(exchanges: seq<(string, string)>, e: (string, string))
    ensures Transcript(exchanges + [e]) == Transcript(exchanges) + Messages(e)
  {}

  /** How many lines are read before the session is left. */
  function Read(inputs: seq<Input>): (n: nat)
    ensures n <= |inputs|
    ensures forall i | 0 <= i < n :: inputs[i].text != "/bye" && inputs[i].text != "/exit"
    ensures n < |inputs| ==> inputs[n].text == "/bye" || inputs[n].text == "/exit"
  {
    if inputs == [] || IsQuit(inputs[0].text) then 0 else 1 + Read(inputs[1..])
  }

  class ChatSession {
    var history: seq<Message>

    constructor ()
      ensures history == []
    {
      history := [];
    }

    /** One line that is sent: the history grows by the exchange, or is as it was. */
    method Send(text: string, answer: Answer)
      modifies this
      ensures ReplyOf(answer).None? ==> history == old(history)
      ensures ReplyOf(answer).Some? ==>
                history == old(history) + Messages((text, StripAll(ReplyOf(answer).value, MARKERS)))
    {
      history := history + [Message(User, text)];
      if !answer.Reply? && !answer.Neither? {
        history := history[..|history| - 1];
        return;
      }
      var reply := Strip(if answer.Reply? then answer.content else "");
      history := history + [Message(Assistant, reply)];
    }

    method TakeLine(input: Input, ghost sofar: seq<(string, string)>)
      requires history == Transcript(sofar) && !IsQuit(input.text)
      modifies this
      ensures history == Transcript(Turn(sofar, input))
    {
      if input.text == "" {
        return;
      }
      if input.text == "/reset" {
        history := [];
        return;
      }
      if input.text == "/help" {
        return;
      }
      Send(input.text, input.answer);
      if ReplyOf(input.answer).Some? {
        TranscriptOne(sofar, (input.text, StripAll(ReplyOf(input.answer).value, MARKERS)));
      }
    }

    method Run(inputs: seq<Input>)
      requires history == []
      modifies this
      ensures history == Transcript(Exchanges(inputs[..Read(inputs)]))
    {
      var i := 0;
      while i < |inputs|
        invariant i <= Read(inputs)
        invariant history == Transcript(Exchanges(inputs[..i]))
        decreases |inputs| - i
      {
        if IsQuit(inputs[i].text) {
          break;
        }
        TakeLine(inputs[i], Exchanges(inputs[..i]));
        ExchangesStep(inputs, i);
        i := i + 1;
      }
    }
  }

  /** At the head of the loop, after any inputs: even length, user and assistant in turn, and the
      messages are the successful exchanges since the last reset. */
  lemma {:induction false} TranscriptAlternates(exchanges: seq<(string, string)>)
    ensures |Transcript(exchanges)| == 2 * |exchanges|
    ensures forall i | 0 <= i < |exchanges| ::
              && Transcript(exchanges)[2 * i] == Message(User, exchanges[i].0)
              && Transcript(exchanges)[2 * i + 1] == Message(Assistant, exchanges[i].1)
    decreases exchanges
  {
    if exchanges != [] {
      TranscriptAlternates(exchanges[..|exchanges| - 1]);
    }
  }

  /** Nothing before the last reset matters. */
  lemma ResetForgets(before: seq<Input>, answer: Answer, after: seq<Input>)
    ensures Exchanges(before + [Line("/reset", answer)] + after) == Exchanges(after)
  {
    var reset := [Line("/reset", answer)];
    TurnsAppend([], before + reset, after);
    TurnsAppend([], before, reset);
    assert Turns(Turns([], before), reset) == Turn(Turns([], before), reset[0]) == [];
  }

  /** A line that is sent and answered adds its exchange to those before it, with the reply stripped. */
  lemma SuccessAdds(before: seq<Input>, text: string, content: string)
    requires text !in ["", "/bye", "/exit", "/reset", "/help"]
    ensures Exchanges(before + [Line(text, Reply(content))]) == Exchanges(before) + [(text, StripAll(content, MARKERS))]
  {
    TurnsAppend([], before, [Line(text, Reply(content))]);
    OneTurn(Turns([], before), Line(text, Reply(content)));
  }

  /** A body with neither choices nor error counts as an empty reply. */
  lemma NeitherAdds(before: seq<Input>, text: string)
    requires text !in ["", "/bye", "/exit", "/reset", "/help"]
    ensures Exchanges(before + [Line(text, Neither)]) == Exchanges(before) + [(text, "")]
  {
    TurnsAppend([], before, [Line(text, Neither)]);
    OneTurn(Turns([], before), Line(text, Neither));
    StripNothing(MARKERS);
  }

  lemma StripNothing(markers: seq<string>)
    requires "" !in markers
    ensures StripAll("", markers) == ""
  {
    StripAllMeans("", markers);
  }

  lemma OneTurn(sofar: seq<(string, string)>, input: Input)
    ensures Turns(sofar, [input]) == Turn(sofar, input)
  {
    assert [input][1..] == [];
  }

  /** An empty line and `/help` change nothing, and nothing is sent for them. */
  lemma IdleLines(before: seq<Input>, answer: Answer, after: seq<Input>, text: string)
    requires text == "" || text == "/help"
    ensures Exchanges(before + [Line(text, answer)] + after) == Exchanges(before + after)
  {
    TurnsAppend([], before + [Line(text, answer)], after);
    TurnsAppend([], before, [Line(text, answer)]);
    TurnsAppend([], before, after);
    OneTurn(Turns([], before), Line(text, answer));
  }

  /** A line whose request fails, in any way, leaves the conversation as if it had not been typed. */
  lemma FailuresLeaveNoTrace(before: seq<Input>, failed: Input, after: seq<Input>)
    requires failed.text != "/reset"
    requires failed.answer in [NoConnection, HttpError, Unreadable, ServerError]
    ensures Exchanges(before + [failed] + after) == Exchanges(before + after)
  {
    var sofar := Turns([], before);
    TurnsAppend([], before + [failed], after);
    TurnsAppend([], before, [failed]);
    TurnsAppend([], before, after);
    assert Turns(sofar, [failed]) == Turn(sofar, failed) == sofar;
  }
}
