/** Shared vocabulary: options, error codes and byte strings.
    A `string` stands for a C++ `std::string`; each `char` is one byte. */
module Prelude {

  datatype Option<+T> = None | Some(value: T)

  datatype ErrorCode = NotFound | AlreadyExists | ModelError | NetworkError

  /** `CLlamaResult<T>`: a value, or an error code with its message. */
  datatype Outcome<+T> = Success(value: T) | Failure(code: ErrorCode, message: string)

  /** The two ways to ask a runner for text. */
  datatype Endpoint = Completion | Chat

  lemma Assoc<T>(a: seq<T>, b: seq<T>, c: seq<T>)
    ensures (a + b) + c == a + (b + c)
  {}

  function Concat(parts: seq<string>): string
  {
    if parts == [] then "" else parts[0] + Concat(parts[1..])
  }

  lemma {:induction false} ConcatAppend(a: seq<string>, b: seq<string>)
    ensures Concat(a + b) == Concat(a) + Concat(b)
  {
    if a == [] {
      assert a + b == b;
    } else {
      ConcatAppend(a[1..], b);
      assert (a + b)[1..] == a[1..] + b;
      Assoc(a[0], Concat(a[1..]), Concat(b));
    }
  }

  lemma ConcatOne(a: seq<string>, s: string)
    ensures Concat(a + [s]) == Concat(a) + s
  {
    ConcatAppend(a, [s]);
    assert Concat([s]) == s;
  }

  function FlatMap(f: char -> string, s: string): string
  {
    if s == "" then "" else f(s[0]) + FlatMap(f, s[1..])
  }

  lemma {:induction false} FlatMapAppend(f: char -> string, a: string, b: string)
    ensures FlatMap(f, a + b) == FlatMap(f, a) + FlatMap(f, b)
  {
    if a == "" {
      assert a + b == b;
    } else {
      FlatMapAppend(f, a[1..], b);
      assert (a + b)[1..] == a[1..] + b;
      Assoc(f(a[0]), FlatMap(f, a[1..]), FlatMap(f, b));
    }
  }

  lemma FlatMapOne(f: char -> string, a: string, c: char)
    ensures FlatMap(f, a + [c]) == FlatMap(f, a) + f(c)
  {
    FlatMapAppend(f, a, [c]);
    assert FlatMap(f, [c]) == f(c) + "" == f(c);
  }

  /** `std::string::find(c, from)`. */
  function FindChar(s: string, c: char, from: nat): (r: Option<nat>)
    requires from <= |s|
    ensures r.None? ==> forall i | from <= i < |s| :: s[i] != c
    ensures r.Some? ==> from <= r.value < |s| && s[r.value] == c && forall i | from <= i < r.value :: s[i] != c
    decreases |s| - from
  {
    if from == |s| then None
    else if s[from] == c then Some(from)
    else FindChar(s, c, from + 1)
  }
}
