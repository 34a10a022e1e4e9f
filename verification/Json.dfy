/** JSON strings on the wire: the escaping every producer in the program uses, a reader for
    section 7 of RFC 8259, and the UTF-8 test that decides whether a string can be dumped at all. */
module Json {
  import opened Prelude

  /** A parsed JSON value, as far as the program looks into it. */
  datatype Value = Null | Bool(b: bool) | Number | Text(s: string) | Array | Object(fields: map<string, Value>)

  // ---- escaping ----

  function HexDigit(n: nat): (c: char)
    requires n < 16
  {
    "0123456789abcdef"[n]
  }

  predicate IsDigit(c: char)
  {
    '0' <= c <= '9'
  }

  function DigitValue(c: char): nat
    requires IsDigit(c)
  {
    c as int - '0' as int
  }

  predicate AllDigits(s: string)
  {
    forall i | 0 <= i < |s| :: IsDigit(s[i])
  }

  /** `std::to_string`. */
  function Decimal(n: nat): (r: string)
    ensures r != "" && AllDigits(r)
  {
    if n < 10 then [HexDigit(n)] else Decimal(n / 10) + [HexDigit(n % 10)]
  }

  function Signed(n: int): string
  {
    if n < 0 then "-" + Decimal(-n) else Decimal(n)
  }

  /** The number that decimal digits denote. */
  function ReadDecimal(s: string): nat
    requires AllDigits(s)
  {
    if s == "" then 0 else 10 * ReadDecimal(s[..|s| - 1]) + DigitValue(s[|s| - 1])
  }

  function ReadSigned(s: string): Option<int>
  {
    if s != "" && s[0] == '-' && AllDigits(s[1..]) then (var n: int := ReadDecimal(s[1..]); Some(-n))
    else if AllDigits(s) then Some(ReadDecimal(s))
    else None
  }

  /** How many digits `s` begins with. */
  function DigitCount(s: string): (n: nat)
    ensures n <= |s| && AllDigits(s[..n]) && (n < |s| ==> !IsDigit(s[n]))
  {
    if s == "" || !IsDigit(s[0]) then 0 else 1 + DigitCount(s[1..])
  }

  lemma {:induction false} DigitsEnd(digits: string, rest: string)
    requires AllDigits(digits) && (rest == "" || !IsDigit(rest[0]))
    ensures DigitCount(digits + rest) == |digits|
    decreases digits
  {
    if digits == "" {
      assert digits + rest == rest;
    } else {
      DigitsEnd(digits[1..], rest);
      assert (digits + rest)[1..] == digits[1..] + rest && (digits + rest)[0] == digits[0];
    }
  }

  lemma HexDigitValue(n: nat)
    requires n < 10
    ensures IsDigit(HexDigit(n)) && DigitValue(HexDigit(n)) == n
  {}

  lemma {:induction false} DecimalReads(n: nat)
    ensures ReadDecimal(Decimal(n)) == n
    ensures n >= 10 ==> Decimal(n)[0] != '0'
  {
    HexDigitValue(n % 10);
    if n >= 10 {
      DecimalReads(n / 10);
      assert Decimal(n)[..|Decimal(n)| - 1] == Decimal(n / 10);
      assert n / 10 < 10 ==> Decimal(n / 10) == [HexDigit(n / 10)];
      if n / 10 < 10 {
        HexDigitValue(n / 10);
      }
    } else {
      assert Decimal(n)[..0] == "";
    }
  }

  /** A number printed reads back, and is printed without leading zeros. */
  lemma SignedReads(n: int)
    ensures ReadSigned(Signed(n)) == Some(n)
    ensures n >= 10 ==> Signed(n)[0] != '0'
  {
    DecimalReads(if n < 0 then -n else n);
    assert n < 0 ==> ("-" + Decimal(-n))[1..] == Decimal(-n);
  }

  function EscapeChar(c: char): string
  {
    match c
    case '"' => "\\\""
    case '\\' => "\\\\"
    case '\U{8}' => "\\b"
    case '\U{c}' => "\\f"
    case '\n' => "\\n"
    case '\r' => "\\r"
    case '\t' => "\\t"
    case _ =>
      if c as int < 0x20 then ['\\', 'u', '0', '0', HexDigit(c as int / 16), HexDigit(c as int % 16)] else [c]
  }

  function Escape(s: string): string
  {
    FlatMap(EscapeChar, s)
  }

  /** The loop that both routers run, one input byte at a time. */
  method EscapeJson(s: string) returns (out: string)
    ensures out == Escape(s)
  {
    out := "";
    for i := 0 to |s|
      invariant out == Escape(s[..i])
    {
      FlatMapOne(EscapeChar, s[..i], s[i]);
      assert s[..i + 1] == s[..i] + [s[i]];
      if s[i] == '"' {
        out := out + "\\\"";
      } else if s[i] == '\\' {
        out := out + "\\\\";
      } else if s[i] == '\U{8}' {
        out := out + "\\b";
      } else if s[i] == '\U{c}' {
        out := out + "\\f";
      } else if s[i] == '\n' {
        out := out + "\\n";
      } else if s[i] == '\r' {
        out := out + "\\r";
      } else if s[i] == '\t' {
        out := out + "\\t";
      } else if s[i] as int < 0x20 {
        out := out + "\\u00" + [HexDigit(s[i] as int / 16), HexDigit(s[i] as int % 16)];
      } else {
        out := out + [s[i]];
      }
    }
    assert s[..|s|] == s;
  }

  /** A character is left alone unless it is a quote, a backslash or a control character; those with a
      short escape get it, the others `\\u00` and two lower-case digits. */
  lemma EscapeForm(c: char)
    ensures EscapeChar(c) == [c] <==> c as int >= 0x20 && c != '"' && c != '\\'
    ensures |EscapeChar(c)| == 2 <==> c in ['"', '\\', '\U{8}', '\U{c}', '\n', '\r', '\t']
    ensures |EscapeChar(c)| > 2 ==>
              |EscapeChar(c)| == 6 && forall i | 0 <= i < 6 :: !('A' <= EscapeChar(c)[i] <= 'Z')
  {}

  /** Escaping a message in parts is escaping it whole. */
  lemma EscapeAppend(a: string, b: string)
    ensures Escape(a + b) == Escape(a) + Escape(b)
  {
    calc {
      Escape(a + b);
      FlatMap(EscapeChar, a + b);
      { FlatMapAppend(EscapeChar, a, b); }
      FlatMap(EscapeChar, a) + FlatMap(EscapeChar, b);
      Escape(a) + FlatMap(EscapeChar, b);
      Escape(a) + Escape(b);
    }
  }

  /** No control character survives escaping, so an escaped string cannot break a line or an event. */
  lemma {:induction false} EscapePrintable(s: string)
    ensures forall i | 0 <= i < |Escape(s)| :: Escape(s)[i] as int >= 0x20
  {
    if s != "" {
      EscapePrintable(s[1..]);
      assert Escape(s) == EscapeChar(s[0]) + Escape(s[1..]);
      assert forall i | 0 <= i < |EscapeChar(s[0])| :: EscapeChar(s[0])[i] as int >= 0x20;
    }
  }

  // ---- reading, section 7 of RFC 8259 ----

  function HexValue(c: char): Option<nat>
  {
    if '0' <= c <= '9' then Some(c as int - '0' as int)
    else if 'a' <= c <= 'f' then Some(c as int - 'a' as int + 10)
    else if 'A' <= c <= 'F' then Some(c as int - 'A' as int + 10)
    else None
  }

  /** The code unit of the escape `\uXXXX` whose four hexadecimal digits begin `s`. */
  function CodeUnit(s: string): (r: Option<nat>)
    ensures r.Some? ==> |s| >= 4 && r.value < 0x1_0000
  {
    if |s| < 4 then None else
      match (HexValue(s[0]), HexValue(s[1]), HexValue(s[2]), HexValue(s[3]))
      case (Some(a), Some(b), Some(c), Some(d)) =>
        if a < 16 && b < 16 && c < 16 && d < 16 then Some(0x1000 * a + 0x100 * b + 0x10 * c + d) else None
      case _ => None
  }

  /** The UTF-8 encoding of a code point, section 3 of RFC 3629. */
  function EncodePoint(u: nat): string
    requires u < 0xD800 || 0xE000 <= u < 0x11_0000
  {
    if u < 0x80 then [u as char]
    else if u < 0x800 then [(0xC0 + u / 0x40) as char, (0x80 + u % 0x40) as char]
    else if u < 0x1_0000 then
      [(0xE0 + u / 0x1000) as char, (0x80 + u / 0x40 % 0x40) as char, (0x80 + u % 0x40) as char]
    else
      [(0xF0 + u / 0x4_0000) as char, (0x80 + u / 0x1000 % 0x40) as char,
       (0x80 + u / 0x40 % 0x40) as char, (0x80 + u % 0x40) as char]
  }

  /** One character of a JSON string: its bytes and how many input bytes it took. */
  function ReadChar(s: string): (r: Option<(string, nat)>)
    requires s != ""
    ensures r.Some? ==> 0 < r.value.1 <= |s|
  {
    if s[0] == '"' || s[0] as int < 0x20 then None
    else if s[0] != '\\' then Some(([s[0]], 1))
    else if |s| < 2 then None
    else
      match s[1]
      case '"' => Some(("\"", 2))
      case '\\' => Some(("\\", 2))
      case '/' => Some(("/", 2))
      case 'b' => Some((['\U{8}'], 2))
      case 'f' => Some((['\U{c}'], 2))
      case 'n' => Some(("\n", 2))
      case 'r' => Some(("\r", 2))
      case 't' => Some(("\t", 2))
      case 'u' =>
        (match CodeUnit(s[2..])
         case None => None
         case Some(u) =>
           if u < 0xD800 || 0xE000 <= u then Some((EncodePoint(u), 6))
           else if u < 0xDC00 && |s| >= 12 && s[6] == '\\' && s[7] == 'u' then
             match CodeUnit(s[8..])
             case Some(v) =>
               if 0xDC00 <= v < 0xE000 then
                 Some((EncodePoint(0x1_0000 + 0x400 * (u - 0xD800) + (v - 0xDC00)), 12))
               else None
             case None => None
           else None)
      case _ => None
  }

  /** Reads a JSON string whose opening quote has been consumed: the bytes it denotes, and what
      follows its closing quote. */
  function ReadString(s: string): Option<(string, string)>
    decreases |s|
  {
    if s == "" then None
    else if s[0] == '"' then Some(("", s[1..]))
    else
      match ReadChar(s)
      case None => None
      case Some((bytes, n)) =>
        match ReadString(s[n..])
        case None => None
        case Some((more, rest)) => Some((bytes + more, rest))
  }

  lemma ReadEscapedChar(c: char, rest: string)
    ensures var e := EscapeChar(c) + rest;
            e[0] != '"' && ReadChar(e) == Some(([c], |EscapeChar(c)|))
  {
    var e := EscapeChar(c) + rest;
    if c as int < 0x20 && |EscapeChar(c)| == 6 {
      var hi, lo := c as int / 16, c as int % 16;
      assert HexValue(HexDigit(hi)) == Some(hi) && HexValue(HexDigit(lo)) == Some(lo);
      assert e[2] == '0' && e[3] == '0' && e[4] == HexDigit(hi) && e[5] == HexDigit(lo);
      assert CodeUnit(e[2..]) == Some(c as int);
    }
  }

  /** Escaping and reading are inverse on every byte string, and the reader stops exactly at the
      quote the writer put: no escaped byte can end the string early. */
  lemma {:induction false} EscapeRoundTrip(s: string, rest: string)
    ensures ReadString(Escape(s) + "\"" + rest) == Some((s, rest))
    decreases |s|
  {
    var e := Escape(s) + "\"" + rest;
    if s == "" {
      assert e == "\"" + rest && e[1..] == rest;
    } else {
      var tail := Escape(s[1..]) + "\"" + rest;
      Assoc(EscapeChar(s[0]), Escape(s[1..]), "\"");
      Assoc(EscapeChar(s[0]), Escape(s[1..]) + "\"", rest);
      ReadEscapedChar(s[0], tail);
      assert e[|EscapeChar(s[0])|..] == tail;
      EscapeRoundTrip(s[1..], rest);
      assert [s[0]] + s[1..] == s;
    }
  }

  // ---- UTF-8 well-formedness, section 4 of RFC 3629 ----

  predicate Continuation(c: char) { 0x80 <= c as int <= 0xBF }

  /** Length of the well-formed sequence that begins `s`; 0 when there is none. */
  function SequenceLength(s: string): (n: nat)
    ensures n <= |s|
  {
    if s == "" then 0 else
      var a := s[0] as int;
      if a < 0x80 then 1
      else if |s| >= 2 && 0xC2 <= a <= 0xDF && Continuation(s[1]) then 2
      else if |s| >= 3 && 0xE0 <= a <= 0xEF && Continuation(s[1]) && Continuation(s[2])
              && (a == 0xE0 ==> s[1] as int >= 0xA0) && (a == 0xED ==> s[1] as int <= 0x9F) then 3
      else if |s| >= 4 && 0xF0 <= a <= 0xF4 && Continuation(s[1]) && Continuation(s[2]) && Continuation(s[3])
              && (a == 0xF0 ==> s[1] as int >= 0x90) && (a == 0xF4 ==> s[1] as int <= 0x8F) then 4
      else 0
  }

  predicate Utf8(s: string)
    decreases |s|
  {
    s == "" || (SequenceLength(s) > 0 && Utf8(s[SequenceLength(s)..]))
  }

  lemma {:induction false} Utf8Append(a: string, b: string)
    requires Utf8(a) && Utf8(b)
    ensures Utf8(a + b)
    decreases |a|
  {
    if a == "" {
      assert a + b == b;
    } else {
      var n := SequenceLength(a);
      assert SequenceLength(a + b) == n;
      assert (a + b)[n..] == a[n..] + b;
      Utf8Append(a[n..], b);
    }
  }

  ghost predicate AllUtf8(parts: seq<string>)
  {
    forall i | 0 <= i < |parts| :: Utf8(parts[i])
  }

  lemma {:induction false} Utf8Concat(parts: seq<string>)
    requires AllUtf8(parts)
    ensures Utf8(Concat(parts))
  {
    if parts != [] {
      Utf8Concat(parts[1..]);
      Utf8Append(parts[0], Concat(parts[1..]));
    }
  }

  // ---- the two records a runner sends ----

  /** `json{{"token", t}}.dump()` */
  function TokenRecord(t: string): string
  {
    "{\"token\":\"" + Escape(t) + "\"}"
  }

  /** `json{{"done", true}, {"text", text}}.dump()` */
  function DoneRecord(text: string): string
  {
    "{\"done\":true,\"text\":\"" + Escape(text) + "\"}"
  }

  lemma RecordsStayOnOneLine(t: string)
    ensures '\n' !in TokenRecord(t) && '\n' !in DoneRecord(t)
    ensures TokenRecord(t) != "" && DoneRecord(t) != ""
  {
    EscapePrintable(t);
    assert '\n' !in Escape(t);
  }

  /** What the program assumes of `json::parse`: on the records a runner can send, it inverts the dump. */
  ghost predicate Inverts(parse: string -> Option<Value>)
  {
    && (forall t | Utf8(t) :: parse(TokenRecord(t)) == Some(Object(map["token" := Text(t)])))
    && (forall t | Utf8(t) :: parse(DoneRecord(t)) == Some(Object(map["done" := Bool(true), "text" := Text(t)])))
  }

  /** A reader of just those two records. */
  function ReadRecord(line: string): Option<Value>
  {
    var tok, fin := "{\"token\":\"", "{\"done\":true,\"text\":\"";
    if tok <= line then
      match ReadString(line[|tok|..])
      case Some((t, "}")) => Some(Object(map["token" := Text(t)]))
      case _ => None
    else if fin <= line then
      match ReadString(line[|fin|..])
      case Some((t, "}")) => Some(Object(map["done" := Bool(true), "text" := Text(t)]))
      case _ => None
    else
      None
  }

  lemma ReadToken(t: string)
    ensures ReadRecord(TokenRecord(t)) == Some(Object(map["token" := Text(t)]))
  {
    var lead := "{\"token\":\"";
    EscapeRoundTrip(t, "}");
    Assoc(lead, Escape(t), "\"}");
    assert Escape(t) + "\"}" == Escape(t) + "\"" + "}";
    Cut(lead, Escape(t) + "\"" + "}");
  }

  lemma ReadDone(t: string)
    ensures ReadRecord(DoneRecord(t)) == Some(Object(map["done" := Bool(true), "text" := Text(t)]))
  {
    var lead, token := "{\"done\":true,\"text\":\"", "{\"token\":\"";
    EscapeRoundTrip(t, "}");
    Assoc(lead, Escape(t), "\"}");
    assert Escape(t) + "\"}" == Escape(t) + "\"" + "}";
    Cut(lead, Escape(t) + "\"" + "}");
    assert DoneRecord(t)[2] == 'd' && token[2] == 't';
  }

  /** The assumption can be met: `ReadRecord` inverts both dumps, on every byte string. */
  lemma ReadRecordInverts(t: string)
    ensures ReadRecord(TokenRecord(t)) == Some(Object(map["token" := Text(t)]))
    ensures ReadRecord(DoneRecord(t)) == Some(Object(map["done" := Bool(true), "text" := Text(t)]))
  {
    ReadToken(t);
    ReadDone(t);
  }

  lemma Cut(prefix: string, body: string)
    ensures prefix <= prefix + body && (prefix + body)[|prefix|..] == body
  {}
}
