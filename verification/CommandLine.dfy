/** The command-line parser: command trees, `App::find_deep`, and what `App::parse` makes of the
    arguments that follow the program's name. */
module CommandLine {
  import opened Prelude

  /** `lname` with its dashes; `sname` without. */
  datatype Opt = Opt(lname: string, sname: Option<char>, isFlag: bool, required: bool)

  datatype Arg = Arg(name: string, required: bool)

  datatype Command = Command(name: string, options: seq<Opt>, arguments: seq<Arg>, subs: seq<Command>)

  datatype App = App(commands: seq<Command>, default: Option<Command>)

  // ---- declaring an option ----

  predicate Space(c: char)
  {
    c == ' ' || ('\t' <= c <= '\r')
  }

  function TrimLeft(s: string): string
  {
    if s != "" && Space(s[0]) then TrimLeft(s[1..]) else s
  }

  function TrimRight(s: string): string
  {
    if s != "" && Space(s[|s| - 1]) then TrimRight(s[..|s| - 1]) else s
  }

  function Trim(s: string): string
  {
    TrimRight(TrimLeft(s))
  }

  predicate ShortName(s: string)
  {
    |s| == 2 && s[0] == '-'
  }

  /** The long and the short name that a declaration such as `--name,-n` records. */
  function Declared(full: string): (string, Option<char>)
  {
    match FindChar(full, ',', 0)
    case None => (full, None)
    case Some(pos) =>
      var first, second := Trim(full[..pos]), Trim(full[pos + 1..]);
      (if first != "" && first[0] == '-' then first else second,
       if ShortName(first) then Some(first[1]) else if ShortName(second) then Some(second[1]) else None)
  }

  /** No blanks at the ends and no comma. */
  predicate PlainName(s: string)
  {
    s != "" && !Space(s[0]) && !Space(s[|s| - 1]) && ',' !in s
  }

  /** For a long name and a short one, in either order, the short name is recorded; but the long name
      is recorded only when it comes first. Written second, it is dropped. */
  lemma DeclarationOrder(name: string, c: char)
    requires PlainName(name) && |name| > 2 && name[0] == '-' && PlainName(['-', c])
    ensures Declared(name + "," + ['-', c]) == (name, Some(c))
    ensures Declared(['-', c] + "," + name) == (['-', c], Some(c))
  {
    DeclaredPair(name, ['-', c]);
    DeclaredPair(['-', c], name);
  }

  lemma TrimPlain(s: string)
    requires PlainName(s)
    ensures Trim(s) == s
  {}

  predicate Blank(s: string)
  {
    forall i | 0 <= i < |s| :: Space(s[i])
  }

  lemma {:induction false} TrimLeftBlank(pad: string, s: string)
    requires Blank(pad) && s != "" && !Space(s[0])
    ensures TrimLeft(pad + s) == s
    decreases pad
  {
    if pad == "" {
      assert pad + s == s;
    } else {
      assert (pad + s)[1..] == pad[1..] + s && (pad + s)[0] == pad[0];
      TrimLeftBlank(pad[1..], s);
    }
  }

  lemma {:induction false} TrimRightBlank(s: string, pad: string)
    requires Blank(pad) && s != "" && !Space(s[|s| - 1])
    ensures TrimRight(s + pad) == s
    decreases pad
  {
    if pad == "" {
      assert s + pad == s;
    } else {
      var n := |pad| - 1;
      assert (s + pad)[..|s + pad| - 1] == s + pad[..n] && (s + pad)[|s + pad| - 1] == pad[n];
      TrimRightBlank(s, pad[..n]);
    }
  }

  /** Trimming takes off exactly the blanks at both ends. */
  lemma TrimMeans(before: string, s: string, after: string)
    requires Blank(before) && Blank(after) && s != "" && !Space(s[0]) && !Space(s[|s| - 1])
    ensures Trim(before + (s + after)) == s
  {
    assert (s + after)[0] == s[0];
    TrimLeftBlank(before, s + after);
    TrimRightBlank(s, after);
  }

  /** Blanks around the two names, and a declaration of one name, which records it as it stands and no
      short name. */
  lemma DeclaredWithBlanks(b1: string, name: string, b2: string, b3: string, c: char, b4: string)
    requires Blank(b1) && Blank(b2) && Blank(b3) && Blank(b4)
    requires PlainName(name) && |name| > 2 && name[0] == '-' && PlainName(['-', c])
    ensures Declared((b1 + (name + b2)) + "," + (b3 + (['-', c] + b4))) == (name, Some(c))
    ensures ',' !in b1 + name ==> Declared(b1 + name) == (b1 + name, None)
  {
    var first := b1 + (name + b2);
    assert forall x | x in first :: x in b1 || x in name || x in b2;
    CutAtComma(first, b3 + (['-', c] + b4));
    TrimMeans(b1, name, b2);
    TrimMeans(b3, ['-', c], b4);
  }

  lemma CutAtComma(first: string, second: string)
    requires ',' !in first
    ensures var full := first + "," + second;
            full[..|first|] == first && full[|first| + 1..] == second && FindChar(full, ',', 0) == Some(|first|)
  {
    var full := first + "," + second;
    assert full[|first|] == ',';
    assert forall i | 0 <= i < |first| :: full[i] == first[i];
    assert full[..|first|] == first;
    assert full[|first| + 1..] == second;
  }

  lemma DeclaredPair(first: string, second: string)
    requires PlainName(first) && PlainName(second)
    ensures FindChar(first + "," + second, ',', 0) == Some(|first|)
    ensures Trim((first + "," + second)[..|first|]) == first
    ensures Trim((first + "," + second)[|first| + 1..]) == second
  {
    CutAtComma(first, second);
    TrimPlain(first);
    TrimPlain(second);
  }

  // ---- looking things up ----

  predicate Matches(o: Opt, arg: string)
  {
    arg == o.lname || (o.sname.Some? && arg == ['-', o.sname.value])
  }

  function FindOption(options: seq<Opt>, arg: string): (r: Option<nat>)
    ensures r.Some? ==> r.value < |options| && Matches(options[r.value], arg)
    ensures r.Some? ==> forall j | 0 <= j < r.value :: !Matches(options[j], arg)
    ensures r.None? ==> forall j | 0 <= j < |options| :: !Matches(options[j], arg)
  {
    if options == [] then None
    else if Matches(options[0], arg) then Some(0)
    else
      match FindOption(options[1..], arg)
      case None => None
      case Some(i) => Some(i + 1)
  }

  function FindShort(options: seq<Opt>, c: char): (r: Option<nat>)
    ensures r.Some? ==> r.value < |options| && options[r.value].sname == Some(c)
    ensures r.Some? ==> forall j | 0 <= j < r.value :: options[j].sname != Some(c)
    ensures r.None? ==> forall j | 0 <= j < |options| :: options[j].sname != Some(c)
  {
    if options == [] then None
    else if options[0].sname == Some(c) then Some(0)
    else
      match FindShort(options[1..], c)
      case None => None
      case Some(i) => Some(i + 1)
  }

  function FindCommand(commands: seq<Command>, name: string): (r: Option<Command>)
    ensures r.Some? ==> r.value in commands && r.value.name == name
    ensures r.Some? ==> exists k :: 0 <= k < |commands| && commands[k] == r.value
                                   && forall j | 0 <= j < k :: commands[j].name != name
    ensures r.None? <==> forall c | c in commands :: c.name != name
  {
    if commands == [] then None
    else if commands[0].name == name then Some(commands[0])
    else FindCommand(commands[1..], name)
  }

  // ---- which command ----

  /** `parse`'s descent: from `args[idx]` on, as long as each names a subcommand. */
  function Descend(cmd: Command, args: seq<string>, idx: nat): (r: (Command, nat))
    requires idx <= |args|
    ensures idx <= r.1 <= |args|
    ensures r.1 < |args| ==> FindCommand(r.0.subs, args[r.1]).None?
    decreases |args| - idx
  {
    if idx == |args| then (cmd, idx) else
      match FindCommand(cmd.subs, args[idx])
      case None => (cmd, idx)
      case Some(sub) => Descend(sub, args, idx + 1)
  }

  /** The commands from `cmd` to the deepest one `names` leads to. */
  function Path(cmd: Command, names: seq<string>): (r: seq<Command>)
    ensures r != [] && |r| <= |names| + 1
    decreases names
  {
    if names == [] then [cmd] else
      match FindCommand(cmd.subs, names[0])
      case None => [cmd]
      case Some(sub) => [cmd] + Path(sub, names[1..])
  }

  /** A path starts at its command, each next one is the subcommand the next name finds, and it ends only
      where the names do, or the next name finds none. */
  lemma {:induction false} PathIsDescent(cmd: Command, names: seq<string>)
    ensures var path := Path(cmd, names);
            && path[0] == cmd
            && (forall i | 0 <= i < |path| - 1 :: FindCommand(path[i].subs, names[i]) == Some(path[i + 1]))
            && (|path| <= |names| ==> FindCommand(Last(path).subs, names[|path| - 1]).None?)
    decreases names
  {
    if names != [] {
      match FindCommand(cmd.subs, names[0])
      case None =>
      case Some(sub) =>
        PathIsDescent(sub, names[1..]);
        var path, rest := Path(cmd, names), Path(sub, names[1..]);
        assert forall i | 0 < i < |path| :: path[i] == rest[i - 1];
        assert forall i | 0 < i < |names| :: names[i] == names[1..][i - 1];
    }
  }

  /** `find_deep`, used by `help`. */
  method FindDeep(app: App, names: seq<string>, start: nat) returns (r: Option<Command>)
    requires start < |names|
    ensures r == match FindCommand(app.commands, names[start])
                 case None => None
                 case Some(c) => Some(Last(Path(c, names[start + 1..])))
  {
    for k := 0 to |app.commands|
      invariant FindCommand(app.commands, names[start]) == FindCommand(app.commands[k..], names[start])
    {
      var c := app.commands[k];
      if c.name == names[start] {
        var cmd := c;
        var i := start + 1;
        while i < |names|
          invariant start < i <= |names|
          invariant Last(Path(cmd, names[i..])) == Last(Path(c, names[start + 1..]))
        {
          var sub := FindCommand(cmd.subs, names[i]);
          if sub.None? {
            return Some(cmd);
          }
          assert names[i..][1..] == names[i + 1..];
          cmd := sub.value;
          i := i + 1;
        }
        return Some(cmd);
      }
      assert app.commands[k..][1..] == app.commands[k + 1..];
    }
    return None;
  }

  function Last<T>(s: seq<T>): T
    requires s != []
  {
    s[|s| - 1]
  }

  /** Help and parsing resolve the same names to the same command. */
  lemma {:induction false} SameCommand(cmd: Command, args: seq<string>, idx: nat)
    requires idx <= |args|
    ensures Descend(cmd, args, idx).0 == Last(Path(cmd, args[idx..]))
    ensures Descend(cmd, args, idx).1 == idx + |Path(cmd, args[idx..])| - 1
    decreases |args| - idx
  {
    if idx < |args| {
      assert args[idx..][0] == args[idx] && args[idx..][1..] == args[idx + 1..];
      match FindCommand(cmd.subs, args[idx])
      case None =>
      case Some(sub) => SameCommand(sub, args, idx + 1);
    }
  }

  /** `full_name()` of the last command of a path: it follows the parents. */
  function FullName(path: seq<Command>): string
    requires path != []
  {
    var up := path[..|path| - 1];
    if up != [] && Last(up).name != "" then FullName(up) + " " + Last(path).name else Last(path).name
  }

  function SpaceJoin(names: seq<string>): string
    requires names != []
  {
    if |names| == 1 then names[0] else SpaceJoin(names[..|names| - 1]) + " " + Last(names)
  }

  lemma {:induction false} PathNames(cmd: Command, names: seq<string>)
    ensures forall i | 0 <= i < |Path(cmd, names)| - 1 :: Path(cmd, names)[i + 1].name == names[i]
    ensures Path(cmd, names)[0] == cmd
    decreases names
  {
    if names != [] {
      match FindCommand(cmd.subs, names[0])
      case None =>
      case Some(sub) => PathNames(sub, names[1..]);
    }
  }

  lemma {:induction false} FullNameJoins(path: seq<Command>, names: seq<string>)
    requires path != [] && |names| == |path|
    requires forall i | 0 <= i < |path| :: path[i].name == names[i] != ""
    ensures FullName(path) == SpaceJoin(names)
    decreases path
  {
    if |path| > 1 {
      FullNameJoins(path[..|path| - 1], names[..|names| - 1]);
    }
  }

  /** The full name of the command reached is the names consumed, separated by spaces. */
  lemma FullNameIsConsumed(cmd: Command, args: seq<string>, idx: nat)
    requires 0 < idx <= |args| && cmd.name == args[idx - 1]
    requires forall i | idx - 1 <= i < Descend(cmd, args, idx).1 :: args[i] != ""
    ensures FullName(Path(cmd, args[idx..])) == SpaceJoin(args[idx - 1..Descend(cmd, args, idx).1])
  {
    SameCommand(cmd, args, idx);
    PathNames(cmd, args[idx..]);
    var path, names := Path(cmd, args[idx..]), args[idx - 1..Descend(cmd, args, idx).1];
    forall i | 0 <= i < |path| ensures path[i].name == names[i] != "" {
      if i > 0 {
        assert path[i - 1 + 1].name == args[idx..][i - 1];
      }
    }
    FullNameJoins(path, names);
  }

  // ---- options and positional arguments ----

  datatype Item = FlagItem(i: nat) | ValueItem(i: nat, v: string) | PosItem(s: string)

  datatype Refusal =
    | UnknownCommand(name: string) | UnknownOption(arg: string) | NeedsValue(shown: string)
    | MissingArgument(index: nat) | MissingOption(index: nat)

  datatype Scanned = Items(items: seq<Item>) | Bad(why: Refusal)

  predicate LongShaped(a: string)
  {
    |a| > 2 && a[0] == '-' && a[1] == '-'
  }

  predicate ShortShaped(a: string)
  {
    |a| == 2 && a[0] == '-'
  }

  function Prepend(items: seq<Item>, r: Scanned): Scanned
  {
    if r.Items? then Items(items + r.items) else r
  }

  /** What an option asks for: the name looked up, the option found, and the value given with `=`. */
  function Asked(cmd: Command, a: string): (string, Option<nat>, Option<string>)
  {
    if LongShaped(a) then
      match FindChar(a, '=', 0)
      case None => (a, FindOption(cmd.options, a), None)
      case Some(eq) => (a[..eq], FindOption(cmd.options, a[..eq]), Some(a[eq + 1..]))
    else if ShortShaped(a) then (a, FindShort(cmd.options, a[1]), None)
    else (a, None, None)
  }

  /** One round of the option loop: an item and how many arguments it took, or a refusal. */
  datatype One = Took(item: Item, n: nat) | Refuses(why: Refusal)

  /** `a` is the argument at hand, `next` the one after it. */
  function ScanOne(cmd: Command, a: string, next: Option<string>): (r: One)
    ensures r.Took? ==> 1 <= r.n <= if next.Some? then 2 else 1
  {
    if !LongShaped(a) && !ShortShaped(a) then Took(PosItem(a), 1)
    else
      var (name, option, given) := Asked(cmd, a);
      if option.None? then Refuses(UnknownOption(a))
      else
        var i := option.value;
        if cmd.options[i].isFlag then Took(FlagItem(i), 1)
        else if given.Some? then Took(ValueItem(i, given.value), 1)
        else if next.Some? then Took(ValueItem(i, next.value), 2)
        else Refuses(NeedsValue(name))
  }

  function NextOf(args: seq<string>, idx: nat): Option<string>
  {
    if idx + 1 < |args| then Some(args[idx + 1]) else None
  }

  function Scan(cmd: Command, args: seq<string>): Scanned
    decreases |args|
  {
    if args == [] then Items([]) else
      match ScanOne(cmd, args[0], NextOf(args, 0))
      case Refuses(why) => Bad(why)
      case Took(item, n) => Prepend([item], Scan(cmd, args[n..]))
  }

  function Stored(m: map<nat, string>, item: Item): map<nat, string>
  {
    match item
    case FlagItem(i) => m[i := "true"]
    case ValueItem(i, v) => m[i := v]
    case PosItem(_) => m
  }

  /** What the items leave in the options' targets, given what was there: the value last set; a flag
      is set to `true`. */
  function SetAll(m: map<nat, string>, items: seq<Item>): map<nat, string>
    decreases items
  {
    if items == [] then m else SetAll(Stored(m, items[0]), items[1..])
  }

  function Settings(items: seq<Item>): map<nat, string>
  {
    SetAll(map[], items)
  }

  function Listed(item: Item): seq<string>
  {
    if item.PosItem? then [item.s] else []
  }

  function Positionals(items: seq<Item>): seq<string>
  {
    if items == [] then [] else Listed(items[0]) + Positionals(items[1..])
  }

  /** Targets written: option index to raw value, argument index to raw value. */
  datatype Bindings = Bindings(options: map<nat, string>, arguments: map<nat, string>)

  function Bound(cmd: Command, positional: seq<string>): map<nat, string>
  {
    map i: nat | i < |cmd.arguments| && i < |positional| :: positional[i]
  }

  datatype ParseOutcome = Parsed(cmd: Command, b: Bindings) | Help(about: Option<Command>) | Refused(why: Refusal)

  function FirstMissingArgument(arguments: seq<Arg>, from: nat): (r: Option<nat>)
    ensures r.Some? ==> from <= r.value < |arguments| && arguments[r.value].required
    ensures r.Some? ==> forall i | from <= i < r.value :: !arguments[i].required
    ensures r.None? ==> forall i | from <= i < |arguments| :: !arguments[i].required
    decreases |arguments| - from
  {
    if from >= |arguments| then None
    else if arguments[from].required then Some(from)
    else FirstMissingArgument(arguments, from + 1)
  }

  function FirstMissingOption(options: seq<Opt>, given: map<nat, string>, from: nat): (r: Option<nat>)
    ensures r.Some? ==> from <= r.value < |options| && options[r.value].required && r.value !in given
    ensures r.Some? ==> forall i | from <= i < r.value && options[i].required :: i in given
    ensures r.None? ==> forall i | from <= i < |options| && options[i].required :: i in given
    decreases |options| - from
  {
    if from >= |options| then None
    else if options[from].required && from !in given then Some(from)
    else FirstMissingOption(options, given, from + 1)
  }

  /** From a scan to the outcome: arguments bound, then required arguments, then required options. */
  function Conclude(cmd: Command, r: Scanned): ParseOutcome
  {
    match r
    case Bad(why) => Refused(why)
    case Items(items) =>
      var positional, options := Positionals(items), Settings(items);
      match FirstMissingArgument(cmd.arguments, |positional|)
      case Some(i) => Refused(MissingArgument(i))
      case None =>
        match FirstMissingOption(cmd.options, options, 0)
        case Some(i) => Refused(MissingOption(i))
        case None => Parsed(cmd, Bindings(options, Bound(cmd, positional)))
  }

  predicate AsksHelp(a: string)
  {
    a == "--help" || a == "-h"
  }

  /** The arguments after the command words. */
  function ParseRest(cmd: Command, rest: seq<string>): ParseOutcome
  {
    if rest != [] && AsksHelp(rest[0]) then Help(Some(cmd)) else Conclude(cmd, Scan(cmd, rest))
  }

  /** The command the first words choose, and how many words that takes. */
  function Resolve(app: App, args: seq<string>): (r: Option<(Command, nat)>)
    requires args != []
    ensures r.Some? ==> r.value.1 <= |args|
  {
    match FindCommand(app.commands, args[0])
    case Some(c) => Some(Descend(c, args, 1))
    case None => if app.default.Some? then Some(Descend(app.default.value, args, 0)) else None
  }

  function Parse(app: App, args: seq<string>): ParseOutcome
  {
    if args == [] then
      (if app.default.Some? then Parsed(app.default.value, Bindings(map[], map[])) else Help(None))
    else if args[0] == "help" then
      (if |args| == 1 then Help(None) else
         match FindCommand(app.commands, args[1])
         case None => Help(None)
         case Some(c) => Help(Some(Last(Path(c, args[2..])))))
    else if AsksHelp(args[0]) then Help(None)
    else
      match Resolve(app, args)
      case None => Refused(UnknownCommand(args[0]))
      case Some((cmd, idx)) => ParseRest(cmd, args[idx..])
  }

  // ---- what the first words choose ----

  /** A word that names a top-level command always chooses it, and then the subcommands that follow it,
      whatever the default command is. */
  lemma NamedCommandWins(app: App, args: seq<string>, c: Command)
    requires args != [] && FindCommand(app.commands, args[0]) == Some(c)
    requires args[0] !in ["help", "--help", "-h"]
    ensures var path := Path(c, args[1..]);
            |path| <= |args| && Parse(app, args) == ParseRest(Last(path), args[|path|..])
  {
    SameCommand(c, args, 1);
  }

  /** Only a first word that names none leaves the choice to the default command, from that word on; and
      without a default command it is refused. */
  lemma DefaultOtherwise(app: App, args: seq<string>)
    requires args != [] && (forall c | c in app.commands :: c.name != args[0])
    requires args[0] !in ["help", "--help", "-h"]
    ensures app.default.None? ==> Parse(app, args) == Refused(UnknownCommand(args[0]))
    ensures app.default.Some? ==>
              var path := Path(app.default.value, args);
              Parse(app, args) == ParseRest(Last(path), args[|path| - 1..])
  {
    DefaultChosen(app, args);
  }

  lemma DefaultChosen(app: App, args: seq<string>)
    requires args != [] && FindCommand(app.commands, args[0]).None? && args[0] != "help" && !AsksHelp(args[0])
    ensures app.default.None? ==> Parse(app, args) == Refused(UnknownCommand(args[0]))
    ensures app.default.Some? ==>
              var path := Path(app.default.value, args);
              Parse(app, args) == ParseRest(Last(path), args[|path| - 1..])
  {
    if app.default.Some? {
      DescendsAlong(app.default.value, args);
    }
  }

  lemma DescendsAlong(cmd: Command, args: seq<string>)
    ensures Descend(cmd, args, 0) == (Last(Path(cmd, args)), |Path(cmd, args)| - 1)
  {
    SameCommand(cmd, args, 0);
    assert args[0..] == args;
  }

  /** Without arguments the default command runs with nothing set, and without one there is help. `help`
      is about the command its names lead to; about everything if there are none or the first is
      unknown; and so is a help flag in the first place. */
  lemma HelpAndNothing(app: App, args: seq<string>, names: seq<string>)
    ensures Parse(app, []) ==
            if app.default.Some? then Parsed(app.default.value, Bindings(map[], map[])) else Help(None)
    ensures names == [] || (forall c | c in app.commands :: c.name != names[0]) ==>
              Parse(app, ["help"] + names) == Help(None)
    ensures forall c | names != [] && FindCommand(app.commands, names[0]) == Some(c) ::
              Parse(app, ["help"] + names) == Help(Some(Last(Path(c, names[1..]))))
    ensures Parse(app, ["--help"] + args) == Parse(app, ["-h"] + args) == Help(None)
  {
    var all := ["help"] + names;
    assert all[0] == "help" && (names != [] ==> all[1] == names[0] && all[2..] == names[1..]);
    assert (["--help"] + args)[0] == "--help" && (["-h"] + args)[0] == "-h";
  }

  /** The targets that options and arguments write to, and with them `was_set`. */
  class Targets {
    var options: map<nat, string>
    var arguments: map<nat, string>

    constructor ()
      ensures options == map[] && arguments == map[]
    {
      options, arguments := map[], map[];
    }

    method SetOption(i: nat, raw: string)
      modifies this
      ensures options == old(options)[i := raw] && arguments == old(arguments)
    {
      options := options[i := raw];
    }

    method SetArgument(i: nat, raw: string)
      modifies this
      ensures arguments == old(arguments)[i := raw] && options == old(options)
    {
      arguments := arguments[i := raw];
    }
  }

  lemma {:induction false} SetAllAppend(m: map<nat, string>, a: seq<Item>, b: seq<Item>)
    ensures SetAll(m, a + b) == SetAll(SetAll(m, a), b)
    decreases a
  {
    if a == [] {
      assert a + b == b;
    } else {
      assert (a + b)[1..] == a[1..] + b;
      SetAllAppend(Stored(m, a[0]), a[1..], b);
    }
  }

  lemma {:induction false} PositionalsAppend(a: seq<Item>, b: seq<Item>)
    ensures Positionals(a + b) == Positionals(a) + Positionals(b)
    decreases a
  {
    if a == [] {
      assert a + b == b;
    } else {
      assert (a + b)[1..] == a[1..] + b;
      PositionalsAppend(a[1..], b);
      Assoc(Listed(a[0]), Positionals(a[1..]), Positionals(b));
    }
  }

  lemma PrependTwice(a: seq<Item>, b: seq<Item>, r: Scanned)
    ensures Prepend(a, Prepend(b, r)) == Prepend(a + b, r)
  {}

  /** The option `a`: its target is set, or it is refused; `used` says that it took `next` as its value. */
  method TakeOption(cmd: Command, a: string, next: Option<string>, t: Targets)
    returns (used: bool, bad: Option<Refusal>)
    requires LongShaped(a) || ShortShaped(a)
    modifies t
    ensures t.arguments == old(t.arguments)
    ensures bad.Some? ==> ScanOne(cmd, a, next) == Refuses(bad.value)
    ensures bad.None? ==> ScanOne(cmd, a, next).Took? && ScanOne(cmd, a, next).n == if used then 2 else 1
    ensures bad.None? ==> !ScanOne(cmd, a, next).item.PosItem?
                          && t.options == Stored(old(t.options), ScanOne(cmd, a, next).item)
  {
    used, bad := false, None;
    var (name, option, given) := Asked(cmd, a);
    if option.None? {
      return used, Some(UnknownOption(a));
    }
    var i := option.value;
    if cmd.options[i].isFlag {
      t.SetOption(i, "true");
    } else if given.Some? {
      t.SetOption(i, given.value);
    } else if next.Some? {
      used := true;
      t.SetOption(i, next.value);
    } else {
      return used, Some(NeedsValue(name));
    }
  }

  lemma ScanAt(cmd: Command, args: seq<string>, idx: nat)
    requires idx < |args|
    ensures var one := ScanOne(cmd, args[idx], NextOf(args, idx));
            Scan(cmd, args[idx..]) ==
            if one.Took? then Prepend([one.item], Scan(cmd, args[idx + one.n..])) else Bad(one.why)
  {}

  lemma OneRound(
    cmd: Command, args: seq<string>, idx: nat, positional: seq<string>, options: map<nat, string>, goal: Scanned)
    requires idx < |args| && Continues(goal, positional, options, Scan(cmd, args[idx..]))
    ensures match ScanOne(cmd, args[idx], NextOf(args, idx))
            case Took(item, n) =>
              Continues(goal, positional + Listed(item), Stored(options, item), Scan(cmd, args[idx + n..]))
            case Refuses(why) => goal == Bad(why)
  {
    ScanAt(cmd, args, idx);
    var one := ScanOne(cmd, args[idx], NextOf(args, idx));
    if one.Took? {
      ContinuesOne(goal, positional, options, one.item, Scan(cmd, args[idx + one.n..]));
    }
  }

  /** The body of the option loop, at `args[idx]`. */
  method TakeArgument(
    cmd: Command, args: seq<string>, idx: nat, positional: seq<string>, t: Targets, ghost goal: Scanned)
    returns (idx': nat, positional': seq<string>, bad: Option<Refusal>)
    requires idx < |args| && Continues(goal, positional, t.options, Scan(cmd, args[idx..]))
    modifies t
    ensures t.arguments == old(t.arguments)
    ensures bad.Some? ==> goal == Bad(bad.value)
    ensures bad.None? ==> idx < idx' <= |args| && Continues(goal, positional', t.options, Scan(cmd, args[idx'..]))
  {
    idx', positional', bad := idx + 1, positional, None;
    OneRound(cmd, args, idx, positional, t.options, goal);
    if LongShaped(args[idx]) || ShortShaped(args[idx]) {
      var used;
      used, bad := TakeOption(cmd, args[idx], NextOf(args, idx), t);
      if used {
        idx' := idx + 2;
      }
      assert positional + [] == positional;
    } else {
      positional' := positional + [args[idx]];
    }
  }

  /** The option loop of `parse`. */
  method ScanArgs(cmd: Command, args: seq<string>, start: nat, t: Targets)
    returns (positional: seq<string>, bad: Option<Refusal>)
    requires start <= |args| && t.options == map[]
    modifies t
    ensures t.arguments == old(t.arguments)
    ensures Gathered(Scan(cmd, args[start..]), positional, t.options, bad)
  {
    positional, bad := [], None;
    var idx := start;
    ghost var goal := Scan(cmd, args[start..]);
    ContinuesFrom(goal);
    while idx < |args|
      invariant start <= idx <= |args| && bad.None?
      invariant Continues(goal, positional, t.options, Scan(cmd, args[idx..]))
      invariant t.arguments == old(t.arguments)
    {
      idx, positional, bad := TakeArgument(cmd, args, idx, positional, t, goal);
      if bad.Some? {
        return;
      }
    }
    assert args[idx..] == [];
    ContinuesEnd(goal, positional, t.options);
  }

  lemma ContinuesFrom(goal: Scanned)
    ensures Continues(goal, [], map[], goal)
  {}

  /** What the loop leaves behind when the scan of its arguments is `goal`. */
  ghost predicate Gathered(goal: Scanned, positional: seq<string>, options: map<nat, string>, bad: Option<Refusal>)
  {
    if bad.Some? then goal == Bad(bad.value)
    else goal.Items? && positional == Positionals(goal.items) && options == Settings(goal.items)
  }

  lemma ContinuesEnd(goal: Scanned, positional: seq<string>, options: map<nat, string>)
    requires Continues(goal, positional, options, Items([]))
    ensures Gathered(goal, positional, options, None)
  {}

  /** What the loop has gathered, together with the scan of what is left, makes up `goal`. */
  ghost predicate Continues(goal: Scanned, positional: seq<string>, options: map<nat, string>, rest: Scanned)
  {
    if rest.Bad? then goal == rest
    else goal.Items? && Positionals(goal.items) == positional + Positionals(rest.items)
         && Settings(goal.items) == SetAll(options, rest.items)
  }

  lemma ContinuesOne(goal: Scanned, positional: seq<string>, options: map<nat, string>, item: Item, rest: Scanned)
    requires Continues(goal, positional, options, Prepend([item], rest))
    ensures Continues(goal, positional + Listed(item), Stored(options, item), rest)
  {
    if rest.Items? {
      assert ([item] + rest.items)[1..] == rest.items;
      Assoc(positional, Listed(item), Positionals(rest.items));
    }
  }

  /** `App::parse`, for the arguments after the program's name. */
  method ParseArgs(app: App, args: seq<string>, t: Targets) returns (r: ParseOutcome)
    requires t.options == map[] && t.arguments == map[]
    modifies t
    ensures r == Parse(app, args)
    ensures r.Parsed? ==> Bindings(t.options, t.arguments) == r.b
  {
    if args == [] {
      return if app.default.Some? then Parsed(app.default.value, Bindings(map[], map[])) else Help(None);
    }
    if args[0] == "help" {
      if |args| >= 2 {
        var about := FindDeep(app, args, 1);
        if about.Some? {
          return Help(about);
        }
      }
      return Help(None);
    }
    if AsksHelp(args[0]) {
      return Help(None);
    }
    var top := FindCommand(app.commands, args[0]);
    var cmd, idx;
    if top.Some? {
      cmd, idx := top.value, 1;
    } else if app.default.Some? {
      cmd, idx := app.default.value, 0;
    } else {
      return Refused(UnknownCommand(args[0]));
    }
    while idx < |args|
      invariant idx <= |args|
      invariant Resolve(app, args) == Some(Descend(cmd, args, idx))
    {
      var sub := FindCommand(cmd.subs, args[idx]);
      if sub.None? {
        break;
      }
      cmd, idx := sub.value, idx + 1;
    }
    assert Parse(app, args) == ParseRest(cmd, args[idx..]);
    r := ParseFrom(cmd, args, idx, t);
  }

  method ParseFrom(cmd: Command, args: seq<string>, idx: nat, t: Targets) returns (r: ParseOutcome)
    requires idx <= |args| && t.options == map[] && t.arguments == map[]
    modifies t
    ensures r == ParseRest(cmd, args[idx..])
    ensures r.Parsed? ==> Bindings(t.options, t.arguments) == r.b
  {
    if idx < |args| && AsksHelp(args[idx]) {
      return Help(Some(cmd));
    }
    var positional, bad := ScanArgs(cmd, args, idx, t);
    if bad.Some? {
      return Refused(bad.value);
    }
    for i := 0 to |positional|
      invariant t.arguments == Bound(cmd, positional[..i]) && t.options == Settings(Scan(cmd, args[idx..]).items)
    {
      if i < |cmd.arguments| {
        t.SetArgument(i, positional[i]);
      }
    }
    assert positional[..|positional|] == positional;
    var argument := FirstMissingArgument(cmd.arguments, |positional|);
    if argument.Some? {
      return Refused(MissingArgument(argument.value));
    }
    var option := FirstMissingOption(cmd.options, t.options, 0);
    if option.Some? {
      return Refused(MissingOption(option.value));
    }
    return Parsed(cmd, Bindings(t.options, t.arguments));
  }

  // ---- what a successful parse means ----

  /** The option an item sets, and to what. */
  predicate Sets(item: Item, i: nat, v: string)
  {
    (item.FlagItem? && item.i == i && v == "true") || (item.ValueItem? && item.i == i && item.v == v)
  }

  predicate Touches(item: Item, i: nat)
  {
    !item.PosItem? && item.i == i
  }

  /** The last item that sets option `i` sets it to `v`. */
  ghost predicate LastSets(items: seq<Item>, i: nat, v: string)
  {
    exists k :: 0 <= k < |items| && Sets(items[k], i, v) && forall j | k < j < |items| :: !Touches(items[j], i)
  }

  ghost predicate Touched(items: seq<Item>, i: nat)
  {
    exists k :: 0 <= k < |items| && Touches(items[k], i)
  }

  lemma {:induction false} SetAllIsLast(m: map<nat, string>, items: seq<Item>, i: nat)
    ensures i in SetAll(m, items) <==> i in m || Touched(items, i)
    ensures Touched(items, i) ==> LastSets(items, i, SetAll(m, items)[i])
    ensures i in m && !Touched(items, i) ==> SetAll(m, items)[i] == m[i]
    decreases items
  {
    if items != [] {
      var m', rest := Stored(m, items[0]), items[1..];
      SetAllIsLast(m', rest, i);
      assert forall k | 0 <= k < |rest| :: rest[k] == items[k + 1];
      if Touched(rest, i) {
        var v := SetAll(m', rest)[i];
        var k :| 0 <= k < |rest| && Sets(rest[k], i, v) && forall j | k < j < |rest| :: !Touches(rest[j], i);
        assert Sets(items[k + 1], i, v) && Touches(items[k + 1], i);
        assert forall j | k + 1 < j < |items| :: items[j] == rest[j - 1];
      } else if Touches(items[0], i) {
        assert Sets(items[0], i, m'[i]);
        assert forall j | 0 < j < |items| :: items[j] == rest[j - 1];
      }
    }
  }

  /** On a normal return every option holds the value last given for it, or was not given and keeps
      its fallback; positional `i` is in argument `i`; and nothing required is missing. */
  lemma ParseMeaning(cmd: Command, rest: seq<string>)
    requires ParseRest(cmd, rest).Parsed?
    ensures Scan(cmd, rest).Items?
    ensures var items, b := Scan(cmd, rest).items, ParseRest(cmd, rest).b;
            && (forall i: nat :: i in b.options <==> Touched(items, i))
            && (forall i: nat | i in b.options :: LastSets(items, i, b.options[i]))
            && (forall i | 0 <= i < |cmd.options| && cmd.options[i].required :: i in b.options)
            && (forall i | 0 <= i < |cmd.arguments| && cmd.arguments[i].required :: i in b.arguments)
            && (forall i: nat :: i in b.arguments <==> i < |cmd.arguments| && i < |Positionals(items)|)
            && (forall i: nat | i in b.arguments :: b.arguments[i] == Positionals(items)[i])
  {
    forall i: nat ensures i in Settings(Scan(cmd, rest).items) <==> Touched(Scan(cmd, rest).items, i)
                  ensures i in Settings(Scan(cmd, rest).items) ==>
                            LastSets(Scan(cmd, rest).items, i, Settings(Scan(cmd, rest).items)[i]) {
      SetAllIsLast(map[], Scan(cmd, rest).items, i);
    }
  }

  /** Everything the command requires has been supplied. */
  ghost predicate Supplied(cmd: Command, b: Bindings)
  {
    && (forall i | 0 <= i < |cmd.options| && cmd.options[i].required :: i in b.options)
    && (forall i | 0 <= i < |cmd.arguments| && cmd.arguments[i].required :: i in b.arguments)
  }

  ghost predicate Demanding(cmd: Command)
  {
    (exists o :: o in cmd.options && o.required) || (exists a :: a in cmd.arguments && a.required)
  }

  /** A normal return means that everything required was supplied, except that with no arguments at all
      the default command is returned unchecked, whatever it requires. */
  lemma RequiredAreSupplied(app: App, args: seq<string>)
    requires Parse(app, args).Parsed?
    ensures Supplied(Parse(app, args).cmd, Parse(app, args).b) <==> args != [] || !Demanding(app.default.value)
  {
    if args != [] {
      var (cmd, idx) := Resolve(app, args).value;
      ParseMeaning(cmd, args[idx..]);
    }
  }

  // ---- rewriting one option form into another ----

  /** A flag is set the same with `=` and a value after it: the value is dropped. */
  lemma FlagForm(cmd: Command, name: string, value: string, post: seq<string>)
    requires LongName(name) && FindOption(cmd.options, name).Some?
    requires cmd.options[FindOption(cmd.options, name).value].isFlag
    ensures Scan(cmd, [name + "=" + value] + post) == Scan(cmd, [name] + post)
  {
    var joined, eq := name + "=" + value, |name|;
    assert joined[eq] == '=' && joined[..eq] == name && joined[eq + 1..] == value;
    assert forall i | 0 <= i < eq :: joined[i] == name[i];
    assert FindChar(joined, '=', 0) == Some(eq) && FindChar(name, '=', 0) == None;
    assert ([joined] + post)[0] == joined && ([joined] + post)[1..] == post;
    assert ([name] + post)[0] == name && ([name] + post)[1..] == post;
  }

  /** After arguments that scan: an option nobody declared is refused, whatever follows it; a known one
      that needs a value and is the last argument is refused for want of it. */
  lemma OptionRefusals(cmd: Command, pre: seq<string>, name: string, c: char, post: seq<string>)
    requires Scan(cmd, pre).Items?
    ensures LongName(name) && (forall o | o in cmd.options :: !Matches(o, name)) ==>
              Scan(cmd, pre + ([name] + post)) == Bad(UnknownOption(name))
    ensures (forall o | o in cmd.options :: o.sname != Some(c)) ==>
              Scan(cmd, pre + ([['-', c]] + post)) == Bad(UnknownOption(['-', c]))
    ensures LongName(name) && FindOption(cmd.options, name).Some?
            && !cmd.options[FindOption(cmd.options, name).value].isFlag ==>
              Scan(cmd, pre + [name]) == Bad(NeedsValue(name))
    ensures FindShort(cmd.options, c).Some? && !cmd.options[FindShort(cmd.options, c).value].isFlag ==>
              Scan(cmd, pre + [['-', c]]) == Bad(NeedsValue(['-', c]))
  {
    ScanAppend(cmd, pre, [name] + post);
    ScanAppend(cmd, pre, [['-', c]] + post);
    ScanAppend(cmd, pre, [name]);
    ScanAppend(cmd, pre, [['-', c]]);
    assert LongName(name) ==> FindChar(name, '=', 0) == None;
    assert ([name] + post)[0] == name && ([['-', c]] + post)[0] == ['-', c];
  }

  /** What counts as an option is a matter of shape alone: `--` is the short option `-`, one more letter
      makes a long one, a one-digit negative number is a short option, and a longer one or a single dash
      is a positional argument. */
  lemma ShapesDecide(cmd: Command)
    requires forall o | o in cmd.options :: o.sname != Some('-') && o.sname != Some('5')
    ensures Scan(cmd, ["--"]) == Bad(UnknownOption("--"))
    ensures Scan(cmd, ["-5"]) == Bad(UnknownOption("-5"))
    ensures Scan(cmd, ["-15"]) == Items([PosItem("-15")])
    ensures Scan(cmd, ["-"]) == Items([PosItem("-")])
    ensures FindOption(cmd.options, "--x").None? ==> Scan(cmd, ["--x"]) == Bad(UnknownOption("--x"))
  {
    assert FindChar("--x", '=', 0) == None;
    assert ["-15"][1..] == [] && ["-"][1..] == [];
  }

  /** Argument `i` is the first required one among those from `given` on, which have no value. */
  predicate FirstUnfilled(arguments: seq<Arg>, given: nat, i: nat)
  {
    given <= i < |arguments| && arguments[i].required && forall j | given <= j < i :: !arguments[j].required
  }

  /** Option `i` is the first required one that was not given. */
  predicate FirstNotGiven(options: seq<Opt>, given: map<nat, string>, i: nat)
  {
    i < |options| && options[i].required && i !in given
    && forall j: nat | j < i && options[j].required :: j in given
  }

  lemma ConcludesExactly(cmd: Command, items: seq<Item>)
    ensures var n, given, r := |Positionals(items)|, Settings(items), Conclude(cmd, Items(items));
            && (forall i: nat :: r == Refused(MissingArgument(i)) <==> FirstUnfilled(cmd.arguments, n, i))
            && (forall i: nat :: r == Refused(MissingOption(i)) <==>
                  (forall j: nat :: !FirstUnfilled(cmd.arguments, n, j)) && FirstNotGiven(cmd.options, given, i))
            && (r.Parsed? || (r.Refused? && (r.why.MissingArgument? || r.why.MissingOption?)))
  {
    var n, given := |Positionals(items)|, Settings(items);
    var argument, option := FirstMissingArgument(cmd.arguments, n), FirstMissingOption(cmd.options, given, 0);
    assert argument.Some? ==> FirstUnfilled(cmd.arguments, n, argument.value);
    assert option.Some? ==> FirstNotGiven(cmd.options, given, option.value);
  }

  /** What a parse that is not help comes to, in the order the code checks: the first option refused, the
      first required argument without a value, the first required option not given, and otherwise the
      command. */
  lemma RefusedExactly(cmd: Command, rest: seq<string>)
    requires rest == [] || rest[0] !in ["--help", "-h"]
    ensures Scan(cmd, rest).Bad? ==> ParseRest(cmd, rest) == Refused(Scan(cmd, rest).why)
    ensures Scan(cmd, rest).Items? ==>
              var n, given := |Positionals(Scan(cmd, rest).items)|, Settings(Scan(cmd, rest).items);
              var r := ParseRest(cmd, rest);
              && (forall i: nat :: r == Refused(MissingArgument(i)) <==> FirstUnfilled(cmd.arguments, n, i))
              && (forall i: nat :: r == Refused(MissingOption(i)) <==>
                    (forall j: nat :: !FirstUnfilled(cmd.arguments, n, j)) && FirstNotGiven(cmd.options, given, i))
              && (r.Parsed? || (r.Refused? && (r.why.MissingArgument? || r.why.MissingOption?)))
  {
    if Scan(cmd, rest).Items? {
      ConcludesExactly(cmd, Scan(cmd, rest).items);
    }
  }

  /** Scanning in two steps, when the first part ends between two options or arguments. */
  lemma {:induction false} ScanAppend(cmd: Command, pre: seq<string>, post: seq<string>)
    requires Scan(cmd, pre).Items? || Scan(cmd, pre).why.UnknownOption?
    ensures Scan(cmd, pre + post) ==
            if Scan(cmd, pre).Items? then Prepend(Scan(cmd, pre).items, Scan(cmd, post)) else Scan(cmd, pre)
    decreases |pre|
  {
    if pre == [] {
      assert pre + post == post;
      assert Scan(cmd, post).Items? ==> [] + Scan(cmd, post).items == Scan(cmd, post).items;
    } else {
      var one := ScanOne(cmd, pre[0], NextOf(pre, 0));
      assert (pre + post)[0] == pre[0] && (|pre| > 1 ==> (pre + post)[1] == pre[1]);
      assert ScanOne(cmd, (pre + post)[0], NextOf(pre + post, 0)) == one;
      if one.Took? {
        assert (pre + post)[one.n..] == pre[one.n..] + post;
        ScanAppend(cmd, pre[one.n..], post);
        if Scan(cmd, pre).Items? {
          PrependTwice([one.item], Scan(cmd, pre[one.n..]).items, Scan(cmd, post));
        }
      }
    }
  }

  /** `pre` does not end with an option still waiting for its value. */
  predicate OptionPosition(cmd: Command, pre: seq<string>)
  {
    !(Scan(cmd, pre).Bad? && Scan(cmd, pre).why.NeedsValue?)
  }

  lemma {:induction false} ScanRefusals(cmd: Command, args: seq<string>)
    ensures Scan(cmd, args).Bad? ==> Scan(cmd, args).why.UnknownOption? || Scan(cmd, args).why.NeedsValue?
    decreases |args|
  {
    if args != [] {
      var one := ScanOne(cmd, args[0], NextOf(args, 0));
      if one.Took? {
        ScanRefusals(cmd, args[one.n..]);
      }
    }
  }

  /** The same up to how an option without its value is spelled in the message. */
  predicate Same(a: Scanned, b: Scanned)
  {
    a == b || (a.Bad? && b.Bad? && a.why.NeedsValue? && b.why.NeedsValue?)
  }

  predicate SameOutcome(a: ParseOutcome, b: ParseOutcome)
  {
    a == b || (a.Refused? && b.Refused? && a.why.NeedsValue? && b.why.NeedsValue?)
  }

  /** A long name the parser can be given by itself: `--` and more, and no `=`. */
  predicate LongName(name: string)
  {
    LongShaped(name) && '=' !in name
  }

  lemma ScanSame(cmd: Command, pre: seq<string>, a: seq<string>, b: seq<string>)
    requires OptionPosition(cmd, pre) && Same(Scan(cmd, a), Scan(cmd, b))
    ensures Same(Scan(cmd, pre + a), Scan(cmd, pre + b))
  {
    ScanRefusals(cmd, pre);
    ScanAppend(cmd, pre, a);
    ScanAppend(cmd, pre, b);
  }

  /** `--name=value` and `--name value`. */
  lemma EqualsForm(cmd: Command, name: string, value: string, post: seq<string>)
    requires LongName(name) && FindOption(cmd.options, name).Some?
    requires !cmd.options[FindOption(cmd.options, name).value].isFlag
    ensures Scan(cmd, [name + "=" + value] + post) == Scan(cmd, [name, value] + post)
  {
    var joined, eq := name + "=" + value, |name|;
    assert joined[eq] == '=' && joined[..eq] == name && joined[eq + 1..] == value;
    assert forall i | 0 <= i < eq :: joined[i] == name[i];
    assert FindChar(joined, '=', 0) == Some(eq) && FindChar(name, '=', 0) == None;
    var one, two := [joined] + post, [name, value] + post;
    assert one[0] == joined && one[1..] == post && two[0] == name && two[1] == value && two[2..] == post;
  }

  /** `-s` and its option's long form, which must be found under its own name. */
  lemma ShortForm(cmd: Command, c: char, post: seq<string>)
    requires FindShort(cmd.options, c).Some?
    requires var o := cmd.options[FindShort(cmd.options, c).value];
             LongName(o.lname) && FindOption(cmd.options, o.lname) == FindShort(cmd.options, c)
    ensures var o := cmd.options[FindShort(cmd.options, c).value];
            Same(Scan(cmd, [['-', c]] + post), Scan(cmd, [o.lname] + post))
  {
    var name := cmd.options[FindShort(cmd.options, c).value].lname;
    assert FindChar(name, '=', 0) == None;
    var one, two := [['-', c]] + post, [name] + post;
    assert one[0] == ['-', c] && one[1..] == post && two[0] == name && two[1..] == post;
    assert |post| > 0 ==> one[1] == post[0] && two[1] == post[0] && one[2..] == post[1..] && two[2..] == post[1..];
  }

  // ---- the same, from the first argument on ----

  /** `names` are the words that lead to `cmd`, and all of them are used up on the way. */
  predicate Chooses(app: App, names: seq<string>, cmd: Command)
  {
    if names == [] then app.default == Some(cmd)
    else
      names[0] !in ["help", "--help", "-h"] &&
      match FindCommand(app.commands, names[0])
      case Some(c) => |Path(c, names[1..])| == |names| && Last(Path(c, names[1..])) == cmd
      case None =>
        app.default.Some?
        && |Path(app.default.value, names)| == |names| + 1 && Last(Path(app.default.value, names)) == cmd
  }

  lemma ChosenIsResolved(app: App, names: seq<string>, cmd: Command)
    requires Chooses(app, names, cmd) && names != []
    ensures Resolve(app, names) == Some((cmd, |names|)) && !AsksHelp(names[0]) && names[0] != "help"
  {
    match FindCommand(app.commands, names[0])
    case Some(c) => SameCommand(c, names, 1);
    case None =>
      SameCommand(app.default.value, names, 0);
      assert names[0..] == names;
  }

  /** `next`, if it is an argument, is not taken for a further command. */
  predicate NotACommand(app: App, names: seq<string>, cmd: Command, next: string)
  {
    && FindCommand(cmd.subs, next).None?
    && (names == [] ==> FindCommand(app.commands, next).None? && next != "help")
  }

  lemma {:induction false} DescendAppend(cmd: Command, names: seq<string>, rest: seq<string>, idx: nat)
    requires idx <= |names| && Descend(cmd, names, idx).1 == |names|
    requires rest == [] || FindCommand(Descend(cmd, names, idx).0.subs, rest[0]).None?
    ensures Descend(cmd, names + rest, idx) == Descend(cmd, names, idx)
    decreases |names| - idx
  {
    if idx < |names| {
      assert (names + rest)[idx] == names[idx];
      DescendAppend(FindCommand(cmd.subs, names[idx]).value, names, rest, idx + 1);
    } else if rest != [] {
      assert (names + rest)[idx] == rest[0];
    }
  }

  /** What follows the command words is parsed by the command they choose. */
  lemma ParseChosen(app: App, names: seq<string>, cmd: Command, rest: seq<string>)
    requires Chooses(app, names, cmd) && names + rest != []
    requires rest != [] ==> NotACommand(app, names, cmd, rest[0])
    ensures Parse(app, names + rest) ==
            if names == [] && AsksHelp(rest[0]) then Help(None) else ParseRest(cmd, rest)
  {
    var args := names + rest;
    if names == [] {
      assert args == rest && args[0..] == rest;
    } else {
      ChosenIsResolved(app, names, cmd);
      assert args[0] == names[0] && args[|names|..] == rest;
      DescendAppend(match FindCommand(app.commands, names[0]) case Some(c) => c case None => app.default.value,
                    names, rest, if FindCommand(app.commands, names[0]).Some? then 1 else 0);
    }
  }

  /** Two rest lists that scan alike give outcomes alike, unless exactly one of them asks for help. */
  lemma HelpDecides(app: App, names: seq<string>, cmd: Command, a: seq<string>, b: seq<string>)
    requires Chooses(app, names, cmd) && a != [] && b != []
    requires NotACommand(app, names, cmd, a[0]) && NotACommand(app, names, cmd, b[0])
    requires Same(Scan(cmd, a), Scan(cmd, b))
    ensures SameOutcome(Parse(app, names + a), Parse(app, names + b)) <==> (AsksHelp(a[0]) <==> AsksHelp(b[0]))
  {
    ParseChosen(app, names, cmd, a);
    ParseChosen(app, names, cmd, b);
  }

  /** Over whole argument lists: writing `--name=value` as `--name value` at any option position changes
      neither the outcome nor any target, except that a first `--help` alone asks for help. */
  lemma EqualsFormEquivalence(
    app: App, names: seq<string>, cmd: Command, pre: seq<string>, name: string, value: string, post: seq<string>)
    requires Chooses(app, names, cmd) && OptionPosition(cmd, pre)
    requires LongName(name) && FindOption(cmd.options, name).Some?
    requires !cmd.options[FindOption(cmd.options, name).value].isFlag
    requires NotACommand(app, names, cmd, if pre == [] then name else pre[0])
    requires NotACommand(app, names, cmd, if pre == [] then name + "=" + value else pre[0])
    ensures SameOutcome(Parse(app, names + (pre + ([name + "=" + value] + post))),
                        Parse(app, names + (pre + ([name, value] + post))))
            <==> pre != [] || name != "--help"
  {
    var joined := name + "=" + value;
    EqualsFormSame(cmd, pre, name, value, post);
    FirstArgument(pre, joined, post);
    FirstArgument(pre, name, [value] + post);
    assert [name, value] + post == [name] + ([value] + post);
    assert joined[|name|] == '=' && !AsksHelp(joined);
    assert AsksHelp(name) <==> name == "--help";
    HelpDecides(app, names, cmd, pre + ([joined] + post), pre + ([name, value] + post));
  }

  lemma EqualsFormSame(cmd: Command, pre: seq<string>, name: string, value: string, post: seq<string>)
    requires OptionPosition(cmd, pre)
    requires LongName(name) && FindOption(cmd.options, name).Some?
    requires !cmd.options[FindOption(cmd.options, name).value].isFlag
    ensures Same(Scan(cmd, pre + ([name + "=" + value] + post)), Scan(cmd, pre + ([name, value] + post)))
  {
    EqualsForm(cmd, name, value, post);
    ScanSame(cmd, pre, [name + "=" + value] + post, [name, value] + post);
  }

  /** ... and so does writing `-s` in its option's long form, except that a first `-h` or `--help`
      asks for help. */
  lemma ShortFormEquivalence(
    app: App, names: seq<string>, cmd: Command, pre: seq<string>, c: char, name: string, post: seq<string>)
    requires Chooses(app, names, cmd) && OptionPosition(cmd, pre) && FindShort(cmd.options, c).Some?
    requires name == cmd.options[FindShort(cmd.options, c).value].lname
    requires LongName(name) && FindOption(cmd.options, name) == FindShort(cmd.options, c)
    requires NotACommand(app, names, cmd, if pre == [] then name else pre[0])
    requires NotACommand(app, names, cmd, if pre == [] then ['-', c] else pre[0])
    ensures SameOutcome(Parse(app, names + (pre + ([['-', c]] + post))), Parse(app, names + (pre + ([name] + post))))
            <==> pre != [] || (c == 'h' <==> name == "--help")
  {
    var a, b := pre + ([['-', c]] + post), pre + ([name] + post);
    ShortForm(cmd, c, post);
    ScanSame(cmd, pre, [['-', c]] + post, [name] + post);
    FirstArgument(pre, ['-', c], post);
    FirstArgument(pre, name, post);
    assert ['-', c] == "-h" <==> c == 'h';
    assert AsksHelp(name) <==> name == "--help";
    HelpDecides(app, names, cmd, a, b);
  }

  lemma FirstArgument(pre: seq<string>, a: string, post: seq<string>)
    ensures (pre + ([a] + post)) != [] && (pre + ([a] + post))[0] == if pre == [] then a else pre[0]
  {}

  // ---- rendering and parsing back ----

  /** An item that can be written so that it reads back: an option under a long name that finds it, a
      positional argument that does not look like an option. */
  predicate Writable(cmd: Command, item: Item)
  {
    match item
    case PosItem(s) => !LongShaped(s) && !ShortShaped(s)
    case FlagItem(i) => i < |cmd.options| && cmd.options[i].isFlag && Findable(cmd, i)
    case ValueItem(i, _) => i < |cmd.options| && !cmd.options[i].isFlag && Findable(cmd, i)
  }

  predicate Findable(cmd: Command, i: nat)
    requires i < |cmd.options|
  {
    LongName(cmd.options[i].lname) && FindOption(cmd.options, cmd.options[i].lname) == Some(i)
  }

  function Written(cmd: Command, item: Item): seq<string>
    requires Writable(cmd, item)
  {
    match item
    case PosItem(s) => [s]
    case FlagItem(i) => [cmd.options[i].lname]
    case ValueItem(i, v) => [cmd.options[i].lname, v]
  }

  function Render(cmd: Command, items: seq<Item>): seq<string>
    requires forall item | item in items :: Writable(cmd, item)
  {
    if items == [] then [] else Written(cmd, items[0]) + Render(cmd, items[1..])
  }

  lemma {:induction false} ScanRender(cmd: Command, items: seq<Item>)
    requires forall item | item in items :: Writable(cmd, item)
    ensures Scan(cmd, Render(cmd, items)) == Items(items)
    decreases items
  {
    if items != [] {
      var w, more := Written(cmd, items[0]), Render(cmd, items[1..]);
      var args := w + more;
      assert args[0] == w[0] && (|w| == 2 ==> args[1] == w[1]) && args[|w|..] == more;
      assert !items[0].PosItem? ==> FindChar(w[0], '=', 0) == None;
      assert ScanOne(cmd, args[0], NextOf(args, 0)) == Took(items[0], |w|);
      ScanRender(cmd, items[1..]);
      assert [items[0]] + items[1..] == items;
    }
  }

  function OptionItem(cmd: Command, given: map<nat, string>, i: nat): seq<Item>
    requires i < |cmd.options|
  {
    if i !in given then [] else if cmd.options[i].isFlag then [FlagItem(i)] else [ValueItem(i, given[i])]
  }

  /** The items that give the options their values, options `from` on, in the command's order. */
  function OptionItems(cmd: Command, given: map<nat, string>, from: nat): seq<Item>
    requires from <= |cmd.options|
    decreases |cmd.options| - from
  {
    if from == |cmd.options| then []
    else OptionItem(cmd, given, from) + OptionItems(cmd, given, from + 1)
  }

  function PosItems(positional: seq<string>): (r: seq<Item>)
    ensures |r| == |positional| && forall i | 0 <= i < |r| :: r[i] == PosItem(positional[i])
  {
    seq(|positional|, i requires 0 <= i < |positional| => PosItem(positional[i]))
  }

  /** An assignment of values that can be written: options by index, flags to `true`, and positional
      arguments that do not look like options. */
  ghost predicate Assignable(cmd: Command, given: map<nat, string>, positional: seq<string>)
  {
    && (forall i | i in given ::
          i < |cmd.options| && Findable(cmd, i) && (cmd.options[i].isFlag ==> given[i] == "true"))
    && (forall s | s in positional :: !LongShaped(s) && !ShortShaped(s))
  }

  /** The options of `given` below `n`. */
  function Below(given: map<nat, string>, n: nat): map<nat, string>
  {
    map i | i in given && i < n :: given[i]
  }

  lemma {:induction false} OptionItemsWritable(cmd: Command, given: map<nat, string>, from: nat)
    requires Assignable(cmd, given, []) && from <= |cmd.options|
    ensures forall item | item in OptionItems(cmd, given, from) :: Writable(cmd, item) && !item.PosItem?
    decreases |cmd.options| - from
  {
    if from < |cmd.options| {
      OptionItemsWritable(cmd, given, from + 1);
    }
  }

  lemma {:induction false} NoPositionals(items: seq<Item>)
    requires forall item | item in items :: !item.PosItem?
    ensures Positionals(items) == []
    decreases items
  {
    if items != [] {
      NoPositionals(items[1..]);
    }
  }

  lemma OneOptionItem(cmd: Command, given: map<nat, string>, i: nat)
    requires i < |cmd.options| && (i in given && cmd.options[i].isFlag ==> given[i] == "true")
    ensures SetAll(Below(given, i), OptionItem(cmd, given, i)) == Below(given, i + 1)
  {}

  lemma {:induction false} OptionItemsSet(cmd: Command, given: map<nat, string>, from: nat)
    requires Assignable(cmd, given, []) && from <= |cmd.options|
    ensures SetAll(Below(given, from), OptionItems(cmd, given, from)) == given
    decreases |cmd.options| - from
  {
    if from == |cmd.options| {
      assert Below(given, from) == given;
    } else {
      OneOptionItem(cmd, given, from);
      OptionItemsSet(cmd, given, from + 1);
      SetAllAppend(Below(given, from), OptionItem(cmd, given, from), OptionItems(cmd, given, from + 1));
    }
  }

  lemma {:induction false} PosItemsAdd(m: map<nat, string>, positional: seq<string>)
    ensures SetAll(m, PosItems(positional)) == m
    ensures Positionals(PosItems(positional)) == positional
    decreases positional
  {
    if positional != [] {
      assert PosItems(positional)[1..] == PosItems(positional[1..]);
      PosItemsAdd(m, positional[1..]);
    }
  }

  /** The canonical way to write an assignment. */
  function Canonical(cmd: Command, given: map<nat, string>, positional: seq<string>): seq<Item>
  {
    OptionItems(cmd, given, 0) + PosItems(positional)
  }

  lemma CanonicalMeans(cmd: Command, given: map<nat, string>, positional: seq<string>)
    requires Assignable(cmd, given, positional)
    ensures forall item | item in Canonical(cmd, given, positional) :: Writable(cmd, item)
    ensures Settings(Canonical(cmd, given, positional)) == given
    ensures Positionals(Canonical(cmd, given, positional)) == positional
  {
    var opts := OptionItems(cmd, given, 0);
    assert Below(given, 0) == map[] && [] + positional == positional;
    OptionItemsWritable(cmd, given, 0);
    OptionItemsSet(cmd, given, 0);
    NoPositionals(opts);
    SetAllAppend(map[], opts, PosItems(positional));
    PositionalsAppend(opts, PosItems(positional));
    PosItemsAdd(given, positional);
    PosItemsWritable(cmd, positional);
  }

  lemma PosItemsWritable(cmd: Command, positional: seq<string>)
    requires forall s | s in positional :: !LongShaped(s) && !ShortShaped(s)
    ensures forall item | item in PosItems(positional) :: Writable(cmd, item)
  {}

  /** Round trip: an assignment that supplies everything required, written after its command words,
      parses back to exactly itself. */
  lemma ParseRoundTrip(app: App, names: seq<string>, cmd: Command, given: map<nat, string>, positional: seq<string>)
    requires Assignable(cmd, given, positional) && Chooses(app, names, cmd)
    requires FirstMissingArgument(cmd.arguments, |positional|).None? && FirstMissingOption(cmd.options, given, 0).None?
    ensures forall item | item in Canonical(cmd, given, positional) :: Writable(cmd, item)
    ensures var rest := Render(cmd, Canonical(cmd, given, positional));
            names + rest != []
            && (rest != [] ==> NotACommand(app, names, cmd, rest[0]) && !AsksHelp(rest[0])) ==>
              Parse(app, names + rest) == Parsed(cmd, Bindings(given, Bound(cmd, positional)))
  {
    CanonicalMeans(cmd, given, positional);
    var items := Canonical(cmd, given, positional);
    ScanRender(cmd, items);
    var rest := Render(cmd, items);
    if names + rest != [] && (rest != [] ==> NotACommand(app, names, cmd, rest[0])) {
      ParseChosen(app, names, cmd, rest);
    }
  }
}
