/**
 * `handleCommand` of src/components/chat/ChatTile.tsx: the input after its first
 * character is split at the first `[digits]` group; the text before it is the
 * command name and the digits, if any, its numeric argument.
 */
module Commands {
  import opened Wrappers
  import opened Text

  /** The length of the run of digits that starts `s`. */
  function DigitRun(s: string): (n: nat)
    ensures n <= |s|
    ensures AllDigits(s[..n])
    ensures n < |s| ==> !IsDigit(s[n])
  {
    if |s| == 0 || !IsDigit(s[0]) then 0
    else
      var n := 1 + DigitRun(s[1..]);
      assert s[..n] == [s[0]] + s[1..][..n - 1];
      n
  }

  /** The pattern `\[(\d+)\]` matches `s` starting at index `i`. */
  predicate MatchesAt(s: string, i: int) {
    0 <= i < |s| && s[i] == '['
    && var n := DigitRun(s[i + 1..]);
       n > 0 && i + 1 + n < |s| && s[i + 1 + n] == ']'
  }

  /** The digits the match at `i` captures. */
  function Captured(s: string, i: int): (d: string)
    requires MatchesAt(s, i)
    ensures |d| > 0 && AllDigits(d)
  {
    var n := DigitRun(s[i + 1..]);
    assert s[i + 1..i + 1 + n] == s[i + 1..][..n];
    s[i + 1..i + 1 + n]
  }

  predicate NoMatch(s: string) {
    forall j :: 0 <= j < |s| ==> !MatchesAt(s, j)
  }

  /** The leftmost match at or after `from`, as the regular-expression search finds it. */
  function FirstMatch(s: string, from: nat): (r: Option<nat>)
    ensures r.Some? ==> from <= r.value < |s| && MatchesAt(s, r.value)
    ensures r.Some? ==> forall j :: from <= j < r.value ==> !MatchesAt(s, j)
    ensures r.None? ==> forall j :: from <= j < |s| ==> !MatchesAt(s, j)
    decreases |s| - from
  {
    if from >= |s| then None
    else if MatchesAt(s, from) then Some(from)
    else FirstMatch(s, from + 1)
  }

  /** The two values `handleCommand` reads from the split: `cmd`, and `numArg` when a group was present. */
  datatype Parsed = Parsed(cmd: string, numArg: Option<nat>)

  /** `command.slice(1).split(/\[(\d+)\]/)`, then `parseInt` of the first captured group. */
  function ParseCommand(command: string): (p: Parsed)
    ensures var rest := if |command| == 0 then "" else command[1..];
      && (p.numArg.None? <==> NoMatch(rest))
      && (p.numArg.None? ==> p.cmd == rest)
      && (p.numArg.Some? ==>
            exists i :: 0 <= i < |rest| && MatchesAt(rest, i)
              && p.cmd == rest[..i] && NoMatch(p.cmd) && p.numArg.value == DecimalValue(Captured(rest, i)))
  {
    var rest := if |command| == 0 then "" else command[1..];
    match FirstMatch(rest, 0)
    case None => Parsed(rest, None)
    case Some(i) =>
      assert NoMatch(rest[..i]) by {
        forall j | 0 <= j < i ensures !MatchesAt(rest[..i], j) {
          if MatchesAt(rest[..i], j) {
            PrefixMatch(rest, i, j);
          }
        }
      }
      Parsed(rest[..i], Some(DecimalValue(Captured(rest, i))))
  }

  /** A match inside a prefix is a match of the whole string. */
  lemma PrefixMatch(s: string, k: nat, j: int)
    requires k <= |s|
    requires MatchesAt(s[..k], j)
    ensures MatchesAt(s, j)
  {
    var t := s[..k];
    var n := DigitRun(t[j + 1..]);
    assert t[j + 1..][..n] == s[j + 1..][..n];
    assert s[j + 1..][n] == t[j + 1 + n];
    DigitRunPrefix(s[j + 1..], n);
  }

  /** A digit run that stops before the end of a prefix stops at the same place in the whole string. */
  lemma {:induction false} DigitRunPrefix(s: string, n: nat)
    requires n < |s| && AllDigits(s[..n]) && !IsDigit(s[n])
    ensures DigitRun(s) == n
  {
    if n > 0 {
      assert s[1..][..n - 1] == s[1..n];
      DigitRunPrefix(s[1..], n - 1);
    }
  }

  lemma {:induction false} DigitRunAppend(x: string, y: string)
    requires DigitRun(x) < |x|
    ensures DigitRun(x + y) == DigitRun(x)
  {
    var n := DigitRun(x);
    assert (x + y)[..n] == x[..n];
    DigitRunPrefix(x + y, n);
  }

  lemma {:induction false} DigitRunAll(d: string, y: string)
    requires AllDigits(d)
    requires |y| > 0 && !IsDigit(y[0])
    ensures DigitRun(d + y) == |d|
  {
    assert (d + y)[..|d|] == d;
    DigitRunPrefix(d + y, |d|);
  }

  /** A match preceded by none is the one the search finds. */
  lemma {:induction false} FirstMatchIs(s: string, from: nat, i: nat)
    requires from <= i && MatchesAt(s, i)
    requires forall j :: from <= j < i ==> !MatchesAt(s, j)
    ensures FirstMatch(s, from) == Some(i)
    decreases i - from
  {
    if from < i {
      FirstMatchIs(s, from + 1, i);
    }
  }

  /**
   * Reading back a composed command: one arbitrary leading character, a name with
   * no `[digits]` group in it, and one group, followed by anything, parse to that
   * name and the group's value; later groups are ignored.
   */
  lemma ParseComposed(lead: char, name: string, digits: string, tail: string)
    requires NoMatch(name)
    requires |digits| > 0 && AllDigits(digits)
    ensures ParseCommand(Compose(lead, name, digits, tail)) == Parsed(name, Some(DecimalValue(digits)))
  {
    var after := "[" + (digits + ("]" + tail));
    var rest := name + after;
    assert Compose(lead, name, digits, tail)[1..] == rest;
    GroupAfterName(name, digits, tail);
    forall j | 0 <= j < |name| ensures !MatchesAt(rest, j) {
      if MatchesAt(rest, j) {
        NameMatchStaysInside(name, after, j);
      }
    }
    FirstMatchIs(rest, 0, |name|);
    assert rest[..|name|] == name;
    ParseAtMatch(Compose(lead, name, digits, tail), |name|);
  }

  /** The text `lead name [digits] tail`. */
  function Compose(lead: char, name: string, digits: string, tail: string): string {
    [lead] + (name + ("[" + (digits + ("]" + tail))))
  }

  /** When the search finds a match at `i`, the command is the text before it and the argument its digits. */
  lemma ParseAtMatch(command: string, i: nat)
    requires |command| > 0 && FirstMatch(command[1..], 0) == Some(i)
    ensures ParseCommand(command) == Parsed(command[1..][..i], Some(DecimalValue(Captured(command[1..], i))))
  {
  }

  /** The group written right after the name matches there and captures the digits. */
  lemma GroupAfterName(name: string, digits: string, tail: string)
    requires |digits| > 0 && AllDigits(digits)
    ensures MatchesAt(name + ("[" + (digits + ("]" + tail))), |name|)
    ensures Captured(name + ("[" + (digits + ("]" + tail))), |name|) == digits
  {
    var closing := "]" + tail;
    var rest := name + ("[" + (digits + closing));
    var i := |name|;
    assert rest[i] == '[';
    assert rest[i + 1..] == digits + closing;
    DigitRunAll(digits, closing);
    assert rest[i + 1 + |digits|] == ']';
    assert rest[i + 1..i + 1 + |digits|] == digits;
  }

  /** A match starting inside `name` that is followed by `[` would have to lie inside `name`. */
  lemma NameMatchStaysInside(name: string, after: string, j: nat)
    requires j < |name| && |after| > 0 && after[0] == '['
    requires MatchesAt(name + after, j)
    ensures MatchesAt(name, j)
  {
    var s := name + after;
    assert s[j] == name[j];
    assert s[j + 1..] == name[j + 1..] + after;
    if DigitRun(name[j + 1..]) < |name[j + 1..]| {
      DigitRunAppend(name[j + 1..], after);
    } else {
      assert AllDigits(name[j + 1..]) by {
        assert name[j + 1..][..|name[j + 1..]|] == name[j + 1..];
      }
      DigitRunAll(name[j + 1..], after);
    }
  }

  /** A command with no `[digits]` group after its first character parses to that text and no argument. */
  lemma ParsePlain(lead: char, name: string)
    requires NoMatch(name)
    ensures ParseCommand([lead] + name) == Parsed(name, None)
  {
    assert ([lead] + name)[1..] == name;
  }

  /** The first character is dropped whatever it is, `!` or not. */
  lemma FirstCharIgnored(a: char, b: char, s: string)
    ensures ParseCommand([a] + s) == ParseCommand([b] + s)
  {
    assert ([a] + s)[1..] == s == ([b] + s)[1..];
  }

  /** The four command names the switch recognises, and the default branch. */
  datatype CommandKind = Help | Forward | Regenerate | Alternative | Unknown

  function Classify(cmd: string): (k: CommandKind)
    ensures k == Help <==> cmd == "help"
    ensures k == Forward <==> cmd == "fw"
    ensures k == Regenerate <==> cmd == "rgen"
    ensures k == Alternative <==> cmd == "alt"
    ensures k == Unknown <==> cmd !in {"help", "fw", "rgen", "alt"}
  {
    if cmd == "help" then Help
    else if cmd == "fw" then Forward
    else if cmd == "rgen" then Regenerate
    else if cmd == "alt" then Alternative
    else Unknown
  }

  /**
   * The console line each branch of the switch writes: `help` and `rgen` a fixed
   * line, `fw` and `alt` a line with the numeric argument (absent when there was
   * no group), and the default branch a line with the whole command as typed.
   */
  datatype LogLine =
    | HelpLine
    | ForwardLine(arg: Option<nat>)
    | RegenerateLine
    | AlternativeLine(arg: Option<nat>)
    | UnknownLine(command: string)

  /** What handling a command can do: write a console line, call `onCommand`, or change the messages. */
  datatype TileEffect =
    | Logged(line: LogLine)
    | InvokedOnCommand(command: string, arg: Option<nat>)
    | MessagesChanged

  /**
   * `handleCommand`: the only effect is one console line for the branch taken; the
   * `onCommand` prop is never called and the message list is never touched.
   */
  function HandleCommand(command: string): (effects: seq<TileEffect>)
    ensures |effects| == 1 && effects[0].Logged?
    ensures var p := ParseCommand(command);
      && (p.cmd == "help" ==> effects[0].line == HelpLine)
      && (p.cmd == "fw" ==> effects[0].line == ForwardLine(p.numArg))
      && (p.cmd == "rgen" ==> effects[0].line == RegenerateLine)
      && (p.cmd == "alt" ==> effects[0].line == AlternativeLine(p.numArg))
      && (p.cmd !in {"help", "fw", "rgen", "alt"} ==> effects[0].line == UnknownLine(command))
    ensures forall i :: 0 <= i < |effects| ==> !effects[i].InvokedOnCommand? && !effects[i].MessagesChanged?
  {
    var p := ParseCommand(command);
    var line := match Classify(p.cmd)
      case Help => HelpLine
      case Forward => ForwardLine(p.numArg)
      case Regenerate => RegenerateLine
      case Alternative => AlternativeLine(p.numArg)
      case Unknown => UnknownLine(command);
    [Logged(line)]
  }

  /** Only the `fw` and `alt` lines carry the argument; `help` and `rgen` never show it. */
  lemma ArgumentLoggedOnlyForForwardAndAlt(command: string)
    ensures var line := HandleCommand(command)[0].line;
      (line.ForwardLine? || line.AlternativeLine?) <==> ParseCommand(command).cmd in {"fw", "alt"}
  {
  }

  /** An unrecognised name is logged with the whole command as typed, brackets and all. */
  lemma UnknownLogsRawCommand()
    ensures ParseCommand("!zz[5]") == Parsed("zz", Some(5))
    ensures HandleCommand("!zz[5]") == [Logged(UnknownLine("!zz[5]"))]
  {
    var command := "!zz[5]";
    assert NoMatch("zz");
    ParseComposed('!', "zz", "5", "");
    assert Compose('!', "zz", "5", "") == command;
    assert DecimalValue("5") == 5;
    var p := ParseCommand(command);
    assert p == Parsed("zz", Some(5));
    assert Classify(p.cmd) == Unknown;
  }

  /** `!fw[0]` is the forward command with argument 0: a zero argument is kept, not dropped. */
  lemma ForwardZero()
    ensures ParseCommand("!fw[0]") == Parsed("fw", Some(0))
    ensures HandleCommand("!fw[0]") == [Logged(ForwardLine(Some(0)))]
  {
    assert NoMatch("fw");
    ParseComposed('!', "fw", "0", "");
    assert Compose('!', "fw", "0", "") == "!fw[0]";
  }
}
