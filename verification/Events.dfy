/** The JSON payloads of a streamed completion or chat, and what a client that reads them gets. */
module Events {
  import opened Prelude
  import opened Json
  import opened IoPipes
  import opened Sse

  /** The fields every event of one response shares. */
  datatype Meta = Meta(id: string, created: nat, model: string)

  /** The fixed text of an endpoint's events: what stands before a token, before the creation time, before
      the two names and after them, and the role event's beginning if there is such an event. */
  datatype Wording =
    Wording(lead: string, created: string, id: string, model: string, close: string, role: Option<string>)

  const ERROR := "{\"error\":\""

  function Names(w: Wording, m: Meta): string
  {
    w.id + (Escape(m.id) + (w.model + (Escape(m.model) + w.close)))
  }

  /** What follows the closing quote of a token. */
  function Rest(w: Wording, m: Meta): string
  {
    w.created + (Decimal(m.created) + Names(w, m))
  }

  function RoleEvent(w: Wording, m: Meta): string
    requires w.role.Some?
  {
    w.role.value + Rest(w, m)
  }

  function TokenEvent(w: Wording, m: Meta, token: string): string
  {
    w.lead + (Escape(token) + "\"" + Rest(w, m))
  }

  function ErrorEvent(message: string): string
  {
    ERROR + (Escape(message) + "\"" + "}")
  }

  /** The content of a token event, as a client finds it; `None` for any other payload. */
  function Content(w: Wording, payload: string): Option<string>
  {
    if w.lead <= payload then
      match ReadString(payload[|w.lead|..])
      case Some((token, _)) => Some(token)
      case None => None
    else None
  }

  /** What `f` finds in a list of payloads. */
  function Pick<T>(f: string -> Option<T>, payloads: seq<string>): seq<T>
  {
    if payloads == [] then [] else
      (match f(payloads[0]) case Some(t) => [t] case None => []) + Pick(f, payloads[1..])
  }

  function ContentOf(w: Wording): string -> Option<string>
  {
    (payload: string) => Content(w, payload)
  }

  function Contents(w: Wording, payloads: seq<string>): seq<string>
  {
    Pick(ContentOf(w), payloads)
  }

  /** The message of an error event, as a client finds it. */
  function Message(payload: string): Option<string>
  {
    if ERROR <= payload then
      match ReadString(payload[|ERROR|..])
      case Some((message, _)) => Some(message)
      case None => None
    else None
  }

  function Messages(payloads: seq<string>): seq<string>
  {
    Pick(Message, payloads)
  }

  /** The id and the model name, from the id's lead on. */
  function ReadNames(w: Wording, s: string): Option<(string, string)>
    requires w.model != ""
  {
    if !(w.id <= s) then None else
      match ReadString(s[|w.id|..])
      case None => None
      case Some((id, more)) =>
        if !(w.model[1..] <= more) then None else
          match ReadString(more[|w.model[1..]|..])
          case None => None
          case Some((model, _)) => Some((id, model))
  }

  /** The fields that stand after what is special to an event: the creation time, whose digits end where
      the id's lead begins, and the names. */
  function ReadMeta(w: Wording, s: string): Option<Meta>
    requires w.model != ""
  {
    if !(w.created <= s) then None else
      var rest := s[|w.created|..];
      var n := DigitCount(rest);
      match ReadNames(w, rest[n..])
      case None => None
      case Some((id, model)) => Some(Meta(id, ReadDecimal(rest[..n]), model))
  }

  /** A chat's role event, as a client finds it. */
  function Role(w: Wording, payload: string): Option<Meta>
    requires w.model != ""
  {
    if w.role.Some? && w.role.value <= payload then ReadMeta(w, payload[|w.role.value|..]) else None
  }

  /** The two differ somewhere, so neither begins with the other. */
  ghost predicate Differ(a: string, b: string)
  {
    exists k :: 0 <= k < |a| && k < |b| && a[k] != b[k]
  }

  /** No part breaks a line, all events are objects, and the token events can be told from the others. */
  ghost predicate WellWorded(w: Wording)
  {
    && OneLine(w.lead) && OneLine(w.created) && OneLine(w.id) && OneLine(w.model) && OneLine(w.close)
    && w.lead != "" && w.lead[0] == '{'
    && w.id != "" && w.id[0] == ',' && w.model != "" && w.model[0] == '"' && w.close != "" && w.close[0] == '"'
    && Differ(w.lead, ERROR)
    && (w.role.Some? ==> OneLine(w.role.value) && w.role.value != "" && w.role.value[0] == '{')
    && (w.role.Some? ==> Differ(w.lead, w.role.value) && Differ(w.role.value, ERROR))
  }

  lemma ContentOfToken(w: Wording, m: Meta, token: string)
    ensures Content(w, TokenEvent(w, m, token)) == Some(token)
  {
    EscapeRoundTrip(token, Rest(w, m));
    Cut(w.lead, Escape(token) + "\"" + Rest(w, m));
  }

  lemma NotPrefix(a: string, b: string, rest: string)
    requires Differ(a, b)
    ensures !(a <= b + rest) && !(b <= a + rest)
  {
    var k :| 0 <= k < |a| && k < |b| && a[k] != b[k];
    assert (b + rest)[k] == b[k] && (a + rest)[k] == a[k];
  }

  /** Each event is found as what it is, and as nothing else. */
  lemma ContentOfOthers(w: Wording, m: Meta, message: string)
    requires WellWorded(w)
    ensures w.role.Some? ==> Content(w, RoleEvent(w, m)) == None
    ensures Content(w, ErrorEvent(message)) == None && Content(w, DONE_MARK) == None
  {
    if w.role.Some? {
      NotPrefix(w.lead, w.role.value, Rest(w, m));
    }
    NotPrefix(w.lead, ERROR, Escape(message) + "\"" + "}");
    assert DONE_MARK[0] != w.lead[0];
  }

  lemma MessageOfEach(w: Wording, m: Meta, token: string, message: string)
    requires WellWorded(w)
    ensures Message(ErrorEvent(message)) == Some(message)
    ensures Message(TokenEvent(w, m, token)) == None && Message(DONE_MARK) == None
    ensures w.role.Some? ==> Message(RoleEvent(w, m)) == None
  {
    EscapeRoundTrip(message, "}");
    Cut(ERROR, Escape(message) + "\"" + "}");
    NotPrefix(w.lead, ERROR, Escape(token) + "\"" + Rest(w, m));
    if w.role.Some? {
      NotPrefix(w.role.value, ERROR, Rest(w, m));
    }
    assert DONE_MARK[0] != ERROR[0];
  }

  lemma NamesRead(w: Wording, m: Meta)
    requires WellWorded(w)
    ensures ReadNames(w, Names(w, m)) == Some((m.id, m.model))
  {
    var close := Escape(m.model) + w.close;
    Cut(w.id, Escape(m.id) + (w.model + close));
    ReadQuoted(m.id, w.model, close);
    Cut(w.model[1..], close);
    assert w.close[1..] + "" == w.close[1..] && w.close + "" == w.close;
    ReadQuoted(m.model, w.close, "");
  }

  lemma MetaReads(w: Wording, m: Meta)
    requires WellWorded(w)
    ensures ReadMeta(w, Rest(w, m)) == Some(m)
  {
    var digits, names := Decimal(m.created), Names(w, m);
    Cut(w.created, digits + names);
    assert names[0] == ',';
    DigitsEnd(digits, names);
    Cut(digits, names);
    assert (digits + names)[..|digits|] == digits;
    DecimalReads(m.created);
    NamesRead(w, m);
  }

  lemma ReadQuoted(s: string, next: string, rest: string)
    requires next != "" && next[0] == '"'
    ensures ReadString(Escape(s) + (next + rest)) == Some((s, next[1..] + rest))
  {
    assert Escape(s) + (next + rest) == Escape(s) + "\"" + (next[1..] + rest);
    EscapeRoundTrip(s, next[1..] + rest);
  }

  /** What follows the token of a token event. */
  function AfterToken(w: Wording, payload: string): Option<string>
  {
    if w.lead <= payload then
      match ReadString(payload[|w.lead|..])
      case Some((_, rest)) => Some(rest)
      case None => None
    else None
  }

  /** The token event reads back as its token, creation time, id and model name, and the role event as
      the last three. */
  lemma EventsRead(w: Wording, m: Meta, token: string)
    requires WellWorded(w)
    ensures Content(w, TokenEvent(w, m, token)) == Some(token)
    ensures AfterToken(w, TokenEvent(w, m, token)).Some?
            && ReadMeta(w, AfterToken(w, TokenEvent(w, m, token)).value) == Some(m)
    ensures w.role.Some? ==> Role(w, RoleEvent(w, m)) == Some(m)
  {
    ContentOfToken(w, m, token);
    RestAfterToken(w, m, token);
    MetaReads(w, m);
    if w.role.Some? {
      Cut(w.role.value, Rest(w, m));
    }
  }

  lemma RestAfterToken(w: Wording, m: Meta, token: string)
    ensures AfterToken(w, TokenEvent(w, m, token)) == Some(Rest(w, m))
  {
    EscapeRoundTrip(token, Rest(w, m));
    Cut(w.lead, Escape(token) + "\"" + Rest(w, m));
  }

  // ---- no payload breaks its event ----

  lemma OneLineSum(a: string, b: string)
    requires OneLine(a) && OneLine(b)
    ensures OneLine(a + b)
  {}

  lemma EscapedOneLine(s: string)
    ensures OneLine(Escape(s))
  {
    EscapePrintable(s);
  }

  lemma RestOneLine(w: Wording, m: Meta)
    requires WellWorded(w)
    ensures OneLine(Rest(w, m))
  {
    EscapedOneLine(m.id);
    EscapedOneLine(m.model);
    OneLineSum(Escape(m.model), w.close);
    OneLineSum(w.model, Escape(m.model) + w.close);
    OneLineSum(Escape(m.id), w.model + (Escape(m.model) + w.close));
    OneLineSum(w.id, Escape(m.id) + (w.model + (Escape(m.model) + w.close)));
    OneLineSum(Decimal(m.created), Names(w, m));
    OneLineSum(w.created, Decimal(m.created) + Names(w, m));
  }

  lemma ErrorOneLine(message: string)
    ensures OneLine(ErrorEvent(message))
  {
    EscapedOneLine(message);
    OneLineSum(Escape(message), "\"");
    OneLineSum(Escape(message) + "\"", "}");
    OneLineSum(ERROR, Escape(message) + "\"" + "}");
  }

  lemma TokenOneLine(w: Wording, m: Meta, token: string)
    requires WellWorded(w)
    ensures OneLine(TokenEvent(w, m, token))
  {
    EscapedOneLine(token);
    RestOneLine(w, m);
    OneLineSum(Escape(token), "\"");
    OneLineSum(Escape(token) + "\"", Rest(w, m));
    OneLineSum(w.lead, Escape(token) + "\"" + Rest(w, m));
  }

  /** No token, model name or message can break its event in two, and no event is mistaken for `[DONE]`. */
  lemma EventsAreWhole(w: Wording, m: Meta, text: string)
    requires WellWorded(w)
    ensures OneLine(TokenEvent(w, m, text)) && TokenEvent(w, m, text) != DONE_MARK
    ensures OneLine(ErrorEvent(text)) && ErrorEvent(text) != DONE_MARK
    ensures w.role.Some? ==> OneLine(RoleEvent(w, m)) && RoleEvent(w, m) != DONE_MARK
  {
    RestOneLine(w, m);
    TokenOneLine(w, m, text);
    ErrorOneLine(text);
    assert TokenEvent(w, m, text)[0] == ErrorEvent(text)[0] == '{';
    if w.role.Some? {
      OneLineSum(w.role.value, Rest(w, m));
      assert RoleEvent(w, m)[0] == '{';
    }
  }

  // ---- the response ----

  function TokenEvents(w: Wording, m: Meta, tokens: seq<string>): (r: seq<string>)
    ensures |r| == |tokens| && forall i | 0 <= i < |r| :: r[i] == TokenEvent(w, m, tokens[i])
  {
    seq(|tokens|, i requires 0 <= i < |tokens| => TokenEvent(w, m, tokens[i]))
  }

  function RoleEvents(w: Wording, m: Meta): Option<string>
  {
    if w.role.Some? then Some(RoleEvent(w, m)) else None
  }

  function ErrorEvents(error: Option<string>): Option<string>
  {
    if error.Some? then Some(ErrorEvent(error.value)) else None
  }

  function ScriptOf(w: Wording, m: Meta, tokens: seq<string>, error: Option<string>): Script
  {
    Script(RoleEvents(w, m), TokenEvents(w, m, tokens), ErrorEvents(error))
  }

  /** What comes before `[DONE]`. */
  function Before(s: Script): seq<string>
  {
    Listed(s.role) + s.tokens + Listed(s.error)
  }

  lemma BeforeIsWhole(w: Wording, m: Meta, tokens: seq<string>, error: Option<string>, payload: string)
    requires WellWorded(w) && payload in Before(ScriptOf(w, m, tokens, error))
    ensures OneLine(payload) && payload != DONE_MARK
  {
    if payload in TokenEvents(w, m, tokens) {
      var i :| 0 <= i < |tokens| && payload == TokenEvent(w, m, tokens[i]);
      EventsAreWhole(w, m, tokens[i]);
    } else {
      EventsAreWhole(w, m, if error.Some? then error.value else "");
    }
  }

  lemma WholeScript(s: Script)
    requires forall payload | payload in Before(s) :: OneLine(payload) && payload != DONE_MARK
    ensures AllOneLine(Full(s)) && Unmarked(s)
  {
    var before := Before(s);
    assert OneLine(DONE_MARK) && Full(s) == before + [DONE_MARK];
    assert forall i | 0 <= i < |before| :: before[i] in before;
  }

  lemma ResponseIsWhole(w: Wording, m: Meta, tokens: seq<string>, error: Option<string>)
    requires WellWorded(w)
    ensures AllOneLine(Full(ScriptOf(w, m, tokens, error))) && Unmarked(ScriptOf(w, m, tokens, error))
  {
    forall payload | payload in Before(ScriptOf(w, m, tokens, error)) ensures OneLine(payload) && payload != DONE_MARK {
      BeforeIsWhole(w, m, tokens, error, payload);
    }
    WholeScript(ScriptOf(w, m, tokens, error));
  }

  lemma {:induction false} PickAppend<T>(f: string -> Option<T>, a: seq<string>, b: seq<string>)
    ensures Pick(f, a + b) == Pick(f, a) + Pick(f, b)
    decreases a
  {
    if a == [] {
      assert a + b == b;
    } else {
      assert (a + b)[1..] == a[1..] + b;
      PickAppend(f, a[1..], b);
    }
  }

  lemma PickGrow<T>(f: string -> Option<T>, a: seq<string>, b: seq<string>)
    requires a <= b
    ensures Pick(f, a) <= Pick(f, b)
  {
    assert b == a + b[|a|..];
    PickAppend(f, a, b[|a|..]);
  }

  lemma PickOne<T>(f: string -> Option<T>, payload: string)
    ensures Pick(f, [payload]) == if f(payload).Some? then [f(payload).value] else []
  {
    assert [payload][1..] == [];
  }

  /** Picking from the parts of a response. */
  lemma PickFull<T>(f: string -> Option<T>, s: Script)
    ensures Pick(f, Full(s)) ==
            Pick(f, Listed(s.role)) + Pick(f, s.tokens) + Pick(f, Listed(s.error)) + Pick(f, [DONE_MARK])
  {
    PickAppend(f, Listed(s.role), s.tokens);
    PickAppend(f, Listed(s.role) + s.tokens, Listed(s.error));
    PickAppend(f, Before(s), [DONE_MARK]);
  }

  lemma {:induction false} ContentsOfTokens(w: Wording, m: Meta, tokens: seq<string>)
    ensures Contents(w, TokenEvents(w, m, tokens)) == tokens
    decreases tokens
  {
    if tokens != [] {
      var events := TokenEvents(w, m, tokens);
      assert events[1..] == TokenEvents(w, m, tokens[1..]);
      ContentOfToken(w, m, tokens[0]);
      ContentsOfTokens(w, m, tokens[1..]);
    }
  }

  lemma {:induction false} MessagesOfTokens(w: Wording, m: Meta, tokens: seq<string>)
    requires WellWorded(w)
    ensures Messages(TokenEvents(w, m, tokens)) == []
    decreases tokens
  {
    if tokens != [] {
      var events := TokenEvents(w, m, tokens);
      assert events[1..] == TokenEvents(w, m, tokens[1..]);
      MessageOfEach(w, m, tokens[0], "");
      MessagesOfTokens(w, m, tokens[1..]);
    }
  }

  /** If `f` finds nothing in the other events, it finds what it finds in the token events. */
  lemma PickTokens<T>(f: string -> Option<T>, s: Script)
    requires s.role.Some? ==> f(s.role.value) == None
    requires s.error.Some? ==> f(s.error.value) == None
    requires f(DONE_MARK) == None
    ensures Pick(f, Full(s)) == Pick(f, s.tokens)
  {
    PickFull(f, s);
    PickOne(f, DONE_MARK);
    if s.role.Some? {
      PickOne(f, s.role.value);
    }
    if s.error.Some? {
      PickOne(f, s.error.value);
    }
  }

  /** The tokens in the transcript of a response that nothing interrupts are the tokens it was given. */
  lemma ContentsOfResponse(w: Wording, m: Meta, tokens: seq<string>, error: Option<string>)
    requires WellWorded(w)
    ensures Contents(w, Full(ScriptOf(w, m, tokens, error))) == tokens
  {
    ContentOfOthers(w, m, if error.Some? then error.value else "");
    PickTokens(ContentOf(w), ScriptOf(w, m, tokens, error));
    ContentsOfTokens(w, m, tokens);
  }

  /** ... and it has one error event, with the message the call failed with, if it failed, and none if it
      did not. */
  lemma MessagesOfResponse(w: Wording, m: Meta, tokens: seq<string>, error: Option<string>)
    requires WellWorded(w)
    ensures Messages(Full(ScriptOf(w, m, tokens, error))) == if error.Some? then [error.value] else []
  {
    var s := ScriptOf(w, m, tokens, error);
    MessageOfEach(w, m, "", if error.Some? then error.value else "");
    PickFull(Message, s);
    if w.role.Some? {
      PickOne(Message, RoleEvent(w, m));
    }
    if error.Some? {
      PickOne(Message, ErrorEvent(error.value));
    }
    PickOne(Message, DONE_MARK);
    MessagesOfTokens(w, m, tokens);
  }

  /** The whole response as a client has read it: a chat's role event first; the error's message, if there
      is one, just before `[DONE]`; and `[DONE]` last. */
  ghost predicate WholeResponse(w: Wording, m: Meta, tokens: seq<string>, error: Option<string>, read: seq<string>)
    requires WellWorded(w)
  {
    && |read| == |tokens| + (if w.role.Some? then 1 else 0) + (if error.Some? then 1 else 0) + 1
    && Contents(w, read) == tokens
    && Messages(read) == (if error.Some? then [error.value] else [])
    && (w.role.Some? ==> Role(w, read[0]) == Some(m))
    && (error.Some? ==> Message(read[|read| - 2]) == error)
    && read[|read| - 1] == "[DONE]"
  }

  lemma FullEnds(s: Script)
    ensures var n := |Full(s)|;
            && n == |s.tokens| + (if s.role.Some? then 1 else 0) + (if s.error.Some? then 1 else 0) + 1
            && Full(s)[n - 1] == "[DONE]"
            && (s.role.Some? ==> Full(s)[0] == s.role.value)
            && (s.error.Some? ==> n >= 2 && Full(s)[n - 2] == s.error.value)
  {}

  lemma FullIsWhole(w: Wording, m: Meta, tokens: seq<string>, error: Option<string>)
    requires WellWorded(w)
    ensures WholeResponse(w, m, tokens, error, Full(ScriptOf(w, m, tokens, error)))
  {
    FullEnds(ScriptOf(w, m, tokens, error));
    ContentsOfResponse(w, m, tokens, error);
    MessagesOfResponse(w, m, tokens, error);
    EventsRead(w, m, "");
    MessageOfEach(w, m, "", if error.Some? then error.value else "");
  }

  /** A client at any moment, over every interleaving and every sequence of read sizes: the tokens it has
      read are a prefix of those the response was given, and it has been told of no error but the
      response's; `[DONE]` is in what it has read at most once, and last; and once it has read it, or seen
      the end of a stream the pipe never refused, it has read the whole response. */
  lemma ResponseClient(w: Wording, m: Meta, tokens: seq<string>, error: Option<string>, turns: seq<Turn>)
    requires WellWorded(w)
    ensures var s := ScriptOf(w, m, tokens, error);
            var x := Play(s, OPEN, turns);
            var read := Decode(x.trace.out);
            && Contents(w, read) <= tokens
            && Messages(read) <= (if error.Some? then [error.value] else [])
            && (forall i | 0 <= i < |read| :: read[i] == DONE_MARK <==> i == |Full(s)| - 1)
            && (DONE_MARK in read || (x.trace.ended && !x.trace.pipe.aborted) ==>
                  WholeResponse(w, m, tokens, error, read))
  {
    var s := ScriptOf(w, m, tokens, error);
    var read := Decode(Play(s, OPEN, turns).trace.out);
    ResponseIsWhole(w, m, tokens, error);
    FullIsWhole(w, m, tokens, error);
    ScriptClient(s, turns);
    PickGrow(ContentOf(w), read, Full(s));
    PickGrow(Message, read, Full(s));
  }

  /** The frame either router sends for an error is one event whose message reads back, for any bytes. */
  lemma ErrorFrameIsOneEvent(message: string)
    ensures Decode(Frame(ErrorEvent(message))) == [ErrorEvent(message)]
    ensures ReadString(ErrorEvent(message)[|ERROR|..]) == Some((message, "}"))
  {
    ErrorOneLine(message);
    TakeFrame(READY, ErrorEvent(message));
    EscapeRoundTrip(message, "}");
    Cut(ERROR, Escape(message) + "\"" + "}");
  }

  // ---- the two endpoints ----

  const CHOICES := "{\"choices\":[{"
  const DELTA := "\"delta\":{"
  const CONTENT := "\"content\":\""
  const ASSISTANT := "\"role\":\"assistant\""
  const REASON := "\"finish_reason\":null"
  const INDEX := ",\"index\":0"
  const LOGPROBS := ",\"logprobs\":null"
  const TEXT := ",\"text\":\""
  const CREATED := "}],\"created\":"
  const ID := ",\"id\":\""
  const MODEL := "\",\"model\":\""
  const OBJECT := "\",\"object\":\""
  const CHAT_CHUNK := "chat.completion.chunk\"}"
  const TEXT_CHUNK := "text_completion\"}"

  /** Only a chat begins with a role event. */
  function WordingOf(e: Endpoint): Wording
  {
    match e
    case Chat =>
      Wording(CHOICES + (DELTA + CONTENT), "}," + (REASON + (INDEX + CREATED)), ID, MODEL, OBJECT + CHAT_CHUNK,
              Some(CHOICES + (DELTA + ASSISTANT)))
    case Completion =>
      Wording(CHOICES + (REASON + (INDEX + (LOGPROBS + TEXT))), CREATED, ID, MODEL, OBJECT + TEXT_CHUNK, None)
  }

  lemma ChatFragments()
    ensures OneLine(CHOICES) && OneLine(DELTA) && OneLine(CONTENT) && OneLine(ASSISTANT)
  {}

  lemma ChoiceFragments()
    ensures OneLine(REASON) && OneLine(INDEX) && OneLine(LOGPROBS) && OneLine(TEXT)
  {}

  lemma NameFragments()
    ensures OneLine(CREATED) && OneLine(ID) && OneLine(MODEL) && OneLine(OBJECT) && OneLine("},")
  {}

  lemma ObjectFragments()
    ensures OneLine(CHAT_CHUNK) && OneLine(TEXT_CHUNK)
  {}

  lemma ChatIsWellWorded()
    ensures WellWorded(WordingOf(Chat))
  {
    var w := WordingOf(Chat);
    ChatFragments();
    ChoiceFragments();
    NameFragments();
    ObjectFragments();
    OneLineSum(DELTA, CONTENT);
    OneLineSum(CHOICES, DELTA + CONTENT);
    OneLineSum(DELTA, ASSISTANT);
    OneLineSum(CHOICES, DELTA + ASSISTANT);
    OneLineSum(INDEX, CREATED);
    OneLineSum(REASON, INDEX + CREATED);
    OneLineSum("},", REASON + (INDEX + CREATED));
    OneLineSum(OBJECT, CHAT_CHUNK);
    ChatLeads();
  }

  lemma ChatLeads()
    ensures var lead, role := CHOICES + (DELTA + CONTENT), CHOICES + (DELTA + ASSISTANT);
            && lead != "" && role != "" && lead[0] == role[0] == '{'
            && Differ(lead, ERROR) && Differ(lead, role) && Differ(role, ERROR)
  {
    var lead, role := CHOICES + (DELTA + CONTENT), CHOICES + (DELTA + ASSISTANT);
    var n := |CHOICES| + |DELTA| + 1;
    assert lead[2] == role[2] == 'c' && ERROR[2] == 'e';
    assert lead[n] == CONTENT[1] == 'c' && role[n] == ASSISTANT[1] == 'r';
  }

  lemma TextIsWellWorded()
    ensures WellWorded(WordingOf(Completion))
  {
    var lead := CHOICES + (REASON + (INDEX + (LOGPROBS + TEXT)));
    ChatFragments();
    ChoiceFragments();
    NameFragments();
    ObjectFragments();
    OneLineSum(LOGPROBS, TEXT);
    OneLineSum(INDEX, LOGPROBS + TEXT);
    OneLineSum(REASON, INDEX + (LOGPROBS + TEXT));
    OneLineSum(CHOICES, REASON + (INDEX + (LOGPROBS + TEXT)));
    OneLineSum(OBJECT, TEXT_CHUNK);
    assert lead[0] == '{' && lead[2] == 'c' && ERROR[2] == 'e';
  }

  lemma EndpointsAreWellWorded(e: Endpoint)
    ensures WellWorded(WordingOf(e))
  {
    if e.Chat? {
      ChatIsWellWorded();
    } else {
      TextIsWellWorded();
    }
  }

  // ---- `[DONE]` can be the write that overflows ----

  /** `n` tokens of one letter, the first `extra` of them with a second one. */
  function Filler(n: nat, extra: nat): (r: seq<string>)
    ensures |r| == n && forall t | t in r :: t == "a" || t == "aa"
  {
    if n == 0 then [] else [if extra > 0 then "aa" else "a"] + Filler(n - 1, if extra > 0 then extra - 1 else 0)
  }

  lemma TokenSize(w: Wording, m: Meta)
    ensures |Frame(TokenEvent(w, m, "a"))| == |Frame(TokenEvent(w, m, ""))| + 1
    ensures |Frame(TokenEvent(w, m, "aa"))| == |Frame(TokenEvent(w, m, ""))| + 2
  {
    assert Escape("") == "" && "a"[1..] == "" && "aa"[1..] == "a";
    assert Escape("a") == "a" + Escape("") && Escape("aa") == "a" + Escape("a");
  }

  lemma FramesCons(w: Wording, m: Meta, token: string, tokens: seq<string>)
    ensures Concat(Frames(TokenEvents(w, m, [token] + tokens))) ==
            Frame(TokenEvent(w, m, token)) + Concat(Frames(TokenEvents(w, m, tokens)))
  {
    assert Frames(TokenEvents(w, m, [token] + tokens))[1..] == Frames(TokenEvents(w, m, tokens));
  }

  lemma {:induction false} FillerSize(w: Wording, m: Meta, size: nat, n: nat, extra: nat)
    requires extra <= n && size == |Frame(TokenEvent(w, m, ""))| + 1
    ensures |Concat(Frames(TokenEvents(w, m, Filler(n, extra))))| == n * size + extra
  {
    if n > 0 {
      var less := if extra > 0 then extra - 1 else 0;
      FillerSize(w, m, size, n - 1, less);
      TokenSize(w, m);
      FramesCons(w, m, if extra > 0 then "aa" else "a", Filler(n - 1, less));
      NextMultiple(n, size);
    }
  }

  lemma NextMultiple(n: nat, size: nat)
    requires n > 0
    ensures n * size == (n - 1) * size + size
  {}

  /** The tokens that make an unread chat fill the pipe to the mark. */
  function Filling(w: Wording, m: Meta): seq<string>
    requires w.role.Some? && |Frame(RoleEvent(w, m))| <= MAX_BUFFER
  {
    FillerFor(MAX_BUFFER - |Frame(RoleEvent(w, m))|, |Frame(TokenEvent(w, m, ""))| + 1)
  }

  function FillerFor(room: nat, size: nat): (r: seq<string>)
    requires size > 0
    ensures forall t | t in r :: t == "a" || t == "aa"
  {
    Filler(room / size, room % size)
  }

  lemma FillingWeighs(w: Wording, m: Meta)
    requires w.role.Some? && |Frame(RoleEvent(w, m))| <= 1000 && |Frame(TokenEvent(w, m, ""))| <= 1000
    ensures |Concat(Frames(TokenEvents(w, m, Filling(w, m))))| == MAX_BUFFER - |Frame(RoleEvent(w, m))|
  {
    var room, size := MAX_BUFFER - |Frame(RoleEvent(w, m))|, |Frame(TokenEvent(w, m, ""))| + 1;
    Quotient(room, size);
    FillerSize(w, m, size, room / size, room % size);
  }

  lemma UnreadFills(w: Wording, m: Meta)
    requires w.role.Some? && |Frame(RoleEvent(w, m))| <= 1000 && |Frame(TokenEvent(w, m, ""))| <= 1000
    ensures var s := ScriptOf(w, m, Filling(w, m), None);
            var y := Play(s, OPEN, Produces(|s.tokens| + 4));
            y.trace.inserted == Frames(Full(s)) && y.trace.pipe.aborted
  {
    var s := ScriptOf(w, m, Filling(w, m), None);
    FillingWeighs(w, m);
    assert Said(s, Marking) == [RoleEvent(w, m)] + s.tokens;
    assert Frames(Said(s, Marking))[1..] == Frames(s.tokens);
    assert Weight(s) == |Frame(RoleEvent(w, m))| + |Concat(Frames(s.tokens))| == MAX_BUFFER;
    UnreadResponse(s);
  }

  lemma Quotient(room: nat, size: nat)
    requires 0 < size <= 1001 && room >= MAX_BUFFER - 1000
    ensures room / size * size + room % size == room && room % size <= room / size
  {
    var q := room / size;
    assert room < q * size + size;
    if q <= 1000 {
      SmallProduct(q, size);
      assert false;
    }
  }

  lemma {:induction false} SmallProduct(a: nat, b: nat)
    requires b <= 1001
    ensures a * b <= 1001 * a
  {
    if a > 0 {
      SmallProduct(a - 1, b);
      NextMultiple(a, b);
    }
  }

  /** The events of an ordinary chat are that short. */
  lemma {:induction false} EscapeSize(s: string)
    ensures |Escape(s)| <= 6 * |s|
  {
    if s != "" {
      EscapeSize(s[1..]);
      assert Escape(s) == EscapeChar(s[0]) + Escape(s[1..]);
    }
  }

  lemma ChatEventsAreShort(m: Meta)
    requires |m.id| <= 30 && |m.model| <= 30 && |Decimal(m.created)| <= 20
    ensures |Frame(RoleEvent(WordingOf(Chat), m))| <= 1000 && |Frame(TokenEvent(WordingOf(Chat), m, ""))| <= 1000
  {
    EscapeSize(m.id);
    EscapeSize(m.model);
    EscapeSize("");
  }

  /** A chat with an id and a model name of ordinary length: there are one- and two-letter tokens for
      which, nobody reading, `[DONE]` is the write that overflows: inserted, with the pipe aborted. */
  lemma DoneCanOverflow(m: Meta)
    requires |m.id| <= 30 && |m.model| <= 30 && |Decimal(m.created)| <= 20
    ensures |Frame(RoleEvent(WordingOf(Chat), m))| <= MAX_BUFFER
    ensures var s := ScriptOf(WordingOf(Chat), m, Filling(WordingOf(Chat), m), None);
            var y := Play(s, OPEN, Produces(|s.tokens| + 4));
            && y.trace.inserted == Frames(Full(s)) && y.trace.pipe.aborted
            && Frame(DONE_MARK) in y.trace.inserted
            && (forall t | t in Filling(WordingOf(Chat), m) :: t == "a" || t == "aa")
  {
    ChatEventsAreShort(m);
    UnreadFills(WordingOf(Chat), m);
    var s := ScriptOf(WordingOf(Chat), m, Filling(WordingOf(Chat), m), None);
    assert Frames(Full(s))[|Full(s)| - 1] == Frame(DONE_MARK);
  }
}
