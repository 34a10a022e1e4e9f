/** Newline framing: the terminated lines of a byte string and what is left after the last newline. */
module Lines {
  import opened Prelude

  function Split(s: string): (seq<string>, string)
    decreases |s|
  {
    match FindChar(s, '\n', 0)
    case None => ([], s)
    case Some(nl) =>
      var rest := Split(s[nl + 1..]);
      ([s[..nl]] + rest.0, rest.1)
  }

  function Join(lines: seq<string>): string
  {
    if lines == [] then "" else lines[0] + "\n" + Join(lines[1..])
  }

  ghost predicate Unbroken(lines: seq<string>)
  {
    forall i | 0 <= i < |lines| :: '\n' !in lines[i]
  }

  lemma {:induction false} JoinAppend(a: seq<string>, b: seq<string>)
    ensures Join(a + b) == Join(a) + Join(b)
  {
    if a == [] {
      assert a + b == b;
    } else {
      JoinAppend(a[1..], b);
      assert (a + b)[1..] == a[1..] + b;
      Assoc(a[0] + "\n", Join(a[1..]), Join(b));
    }
  }

  lemma JoinCons(line: string, lines: seq<string>, tail: string)
    ensures Join([line] + lines) + tail == line + ("\n" + (Join(lines) + tail))
  {}

  lemma CutAt(s: string, pos: nat, nl: nat)
    requires pos <= nl < |s| && s[nl] == '\n'
    ensures s[pos..] == s[pos..nl] + ("\n" + s[nl + 1..])
  {}

  lemma SplitStep(s: string, nl: nat)
    requires FindChar(s, '\n', 0) == Some(nl)
    ensures Split(s) == ([s[..nl]] + Split(s[nl + 1..]).0, Split(s[nl + 1..]).1)
    ensures s == s[..nl] + ("\n" + s[nl + 1..])
  {}

  /** The split loses nothing: the pieces, put back together, are the input. */
  lemma {:induction false} SplitSound(s: string)
    ensures Join(Split(s).0) + Split(s).1 == s
    decreases |s|
  {
    var nl := FindChar(s, '\n', 0);
    if nl.Some? {
      var line, more := s[..nl.value], s[nl.value + 1..];
      SplitSound(more);
      SplitStep(s, nl.value);
      JoinCons(line, Split(more).0, Split(more).1);
    } else {
      assert Join([]) + s == s;
    }
  }

  lemma {:induction false} SplitUnbroken(s: string)
    ensures Unbroken(Split(s).0) && '\n' !in Split(s).1
    decreases |s|
  {
    var nl := FindChar(s, '\n', 0);
    if nl.Some? {
      SplitUnbroken(s[nl.value + 1..]);
    }
  }

  /** ... and it is the only such split. */
  lemma {:induction false} SplitUnique(lines: seq<string>, tail: string)
    requires Unbroken(lines) && '\n' !in tail
    ensures Split(Join(lines) + tail) == (lines, tail)
    decreases lines
  {
    if lines == [] {
      assert Join(lines) + tail == tail;
    } else {
      var line, more := lines[0], lines[1..];
      assert [line] + more == lines;
      JoinCons(line, more, tail);
      SplitLine(line, Join(more) + tail);
      SplitUnique(more, tail);
    }
  }

  lemma SplitLine(line: string, rest: string)
    requires '\n' !in line
    ensures Split(line + ("\n" + rest)) == ([line] + Split(rest).0, Split(rest).1)
  {
    var s, n := line + ("\n" + rest), |line|;
    assert s[n] == '\n' && s[..n] == line && s[n + 1..] == rest;
    assert forall i | 0 <= i < n :: s[i] == line[i];
    assert FindChar(s, '\n', 0) == Some(n);
  }

  /** The split as a scan finds it, from `pos` on. */
  function LinesFrom(s: string, pos: nat): (seq<string>, string)
    requires pos <= |s|
    decreases |s| - pos
  {
    match FindChar(s, '\n', pos)
    case None => ([], s[pos..])
    case Some(nl) =>
      var rest := LinesFrom(s, nl + 1);
      ([s[pos..nl]] + rest.0, rest.1)
  }

  lemma {:induction false} LinesFromIsSplit(s: string, pos: nat)
    requires pos <= |s|
    ensures LinesFrom(s, pos) == Split(s[pos..])
    decreases |s| - pos
  {
    var nl := FindChar(s, '\n', pos);
    if nl.None? {
      NoLineLeft(s, pos);
      LastLine(s[pos..]);
    } else {
      LinesFromIsSplit(s, nl.value + 1);
      LinesFromStep(s, pos, nl.value);
      SplitFrom(s, pos, nl.value);
    }
  }

  lemma LinesFromStep(s: string, pos: nat, nl: nat)
    requires pos <= |s| && FindChar(s, '\n', pos) == Some(nl)
    ensures LinesFrom(s, pos) == ([s[pos..nl]] + LinesFrom(s, nl + 1).0, LinesFrom(s, nl + 1).1)
    ensures s[nl] == '\n' && '\n' !in s[pos..nl]
  {
    assert forall i | 0 <= i < nl - pos :: s[pos..nl][i] == s[pos + i];
  }

  lemma SplitFrom(s: string, pos: nat, nl: nat)
    requires pos <= nl < |s| && s[nl] == '\n' && '\n' !in s[pos..nl]
    ensures Split(s[pos..]) == ([s[pos..nl]] + Split(s[nl + 1..]).0, Split(s[nl + 1..]).1)
  {
    CutAt(s, pos, nl);
    SplitLine(s[pos..nl], s[nl + 1..]);
  }

  lemma NoLineLeft(s: string, pos: nat)
    requires pos <= |s| && FindChar(s, '\n', pos).None?
    ensures LinesFrom(s, pos) == ([], s[pos..]) && '\n' !in s[pos..]
  {
    assert forall i | 0 <= i < |s| - pos :: s[pos..][i] == s[pos + i];
  }

  lemma LastLine(s: string)
    requires '\n' !in s
    ensures Split(s) == ([], s)
  {
    assert Join([]) + s == s;
    SplitUnique([], s);
  }

  /** Splitting in two steps: what the first part leaves over is put in front of the second. */
  lemma SplitAppend(a: string, b: string)
    ensures Split(a + b) == (Split(a).0 + Split(Split(a).1 + b).0, Split(Split(a).1 + b).1)
  {
    var la, ta := Split(a).0, Split(a).1;
    var lb, tb := Split(ta + b).0, Split(ta + b).1;
    SplitSound(a);
    SplitUnbroken(a);
    SplitSound(ta + b);
    SplitUnbroken(ta + b);
    JoinAppend(la, lb);
    Assoc(Join(la), ta, b);
    Assoc(Join(la), Join(lb), tb);
    SplitUnique(la + lb, tb);
  }

  /** Of a byte prefix of framed lines, the terminated lines are a prefix of those lines. */
  lemma PrefixLines(p: string, lines: seq<string>)
    requires Unbroken(lines) && p <= Join(lines)
    ensures Split(p).0 <= lines
  {
    var rest := Join(lines)[|p|..];
    assert p + rest == Join(lines) == Join(lines) + "";
    SplitUnique(lines, "");
    SplitAppend(p, rest);
  }
}
