/**
  Turning an argument vector into the one string a Windows child re-splits (child_stream.cpp,
  `quoteArg` and `buildCommandLine`), and the documented Microsoft C argument parser as its
  inverse. Text is taken after conversion to wide characters.
*/
module CommandLine {
  import opened Laws

  const VERTICAL_TAB: char := '\U{B}'

  predicate IsBlank(c: char) {
    c == ' ' || c == '\t'
  }

  predicate NeedsQuotes(c: char) {
    c == ' ' || c == '\t' || c == '\n' || c == VERTICAL_TAB || c == '"'
  }

  /** An argument that travels as it is. */
  predicate Plain(arg: string) {
    arg != "" && forall i :: 0 <= i < |arg| ==> !NeedsQuotes(arg[i])
  }

  function Backslashes(n: nat): (s: string)
    ensures |s| == n && forall i :: 0 <= i < n ==> s[i] == '\\'
  {
    seq(n, _ => '\\')
  }

  // ---------------------------------------------------------------- specification

  /** The rest of a quoted body after `n` backslashes not written yet: doubled only before a quote. */
  function Escaped(arg: string, n: nat): string
    decreases |arg|
  {
    if arg == "" then Backslashes(2 * n)
    else if arg[0] == '\\' then Escaped(arg[1..], n + 1)
    else if arg[0] == '"' then Backslashes(2 * n + 1) + (['"'] + Escaped(arg[1..], 0))
    else Backslashes(n) + ([arg[0]] + Escaped(arg[1..], 0))
  }

  function Quoted(arg: string): string {
    if Plain(arg) then arg else ['"'] + Escaped(arg, 0) + ['"']
  }

  /** Arguments in order, each with the space before it. */
  function Spaced(args: seq<string>): string {
    if args == [] then "" else [' '] + Quoted(args[0]) + Spaced(args[1..])
  }

  /** The command line of an argument vector, separated by single spaces. */
  function LineOf(argv: seq<string>): string {
    if argv == [] then "" else Quoted(argv[0]) + Spaced(argv[1..])
  }

  // ---------------------------------------------------------------- the parser

  datatype Parsed = Parsed(arg: string, rest: string)

  /**
    One argument, `acc` and then `n` undecided backslashes of it already read. A quote after 2n
    backslashes delimits and after 2n + 1 is literal; backslashes elsewhere are literal; a blank
    outside quotes ends the argument. With `pairs`, a doubled quote inside quotes is one literal
    quote, the reading newer runtimes take.
  */
  function ParseArg(s: string, acc: string, n: nat, inQuotes: bool, pairs: bool): (p: Parsed)
    ensures |p.rest| <= |s|
    ensures EndsArgument(p.rest)
    decreases |s|
  {
    if s == "" then Parsed(acc + Backslashes(n), "")
    else if s[0] == '\\' then ParseArg(s[1..], acc, n + 1, inQuotes, pairs)
    else if s[0] == '"' then
      var half := acc + Backslashes(n / 2);
      if n % 2 == 1 then ParseArg(s[1..], half + ['"'], 0, inQuotes, pairs)
      else if pairs && inQuotes && 1 < |s| && s[1] == '"' then ParseArg(s[2..], half + ['"'], 0, inQuotes, pairs)
      else ParseArg(s[1..], half, 0, !inQuotes, pairs)
    else if !inQuotes && IsBlank(s[0]) then Parsed(acc + Backslashes(n), s)
    else ParseArg(s[1..], acc + Backslashes(n) + [s[0]], 0, inQuotes, pairs)
  }

  predicate EndsArgument(tail: string) {
    tail == "" || IsBlank(tail[0])
  }

  /** The arguments of a command line after the program name. */
  function Split(s: string, pairs: bool): seq<string>
    decreases |s|
  {
    if s == "" then []
    else if IsBlank(s[0]) then Split(s[1..], pairs)
    else
      var p := ParseArg(s, "", 0, false, pairs);
      [p.arg] + (if |p.rest| < |s| then Split(p.rest, pairs) else [])
  }

  /** The program name obeys other rules: quotes toggle and vanish, backslashes mean nothing. */
  function ParseProgram(s: string, acc: string, inQuotes: bool): (p: Parsed)
    ensures '"' !in acc ==> '"' !in p.arg
    decreases |s|
  {
    if s == "" then Parsed(acc, "")
    else if s[0] == '"' then ParseProgram(s[1..], acc, !inQuotes)
    else if !inQuotes && IsBlank(s[0]) then Parsed(acc, s)
    else ParseProgram(s[1..], acc + [s[0]], inQuotes)
  }

  function ParseLine(line: string, pairs: bool): seq<string> {
    var p := ParseProgram(line, "", false);
    [p.arg] + Split(p.rest, pairs)
  }

  // ---------------------------------------------------------------- one argument

  lemma {:induction false} ReadRun(k: nat, s: string, acc: string, n: nat, inQuotes: bool, pairs: bool)
    ensures ParseArg(Backslashes(k) + s, acc, n, inQuotes, pairs) == ParseArg(s, acc, n + k, inQuotes, pairs)
    decreases k
  {
    if k == 0 {
      assert Backslashes(0) + s == s;
    } else {
      assert (Backslashes(k) + s)[1..] == Backslashes(k - 1) + s;
      ReadRun(k - 1, s, acc, n + 1, inQuotes, pairs);
    }
  }

  lemma {:induction false} PlainParses(arg: string, acc: string, n: nat, tail: string, pairs: bool)
    requires EndsArgument(tail) && forall i :: 0 <= i < |arg| ==> !NeedsQuotes(arg[i])
    ensures ParseArg(arg + tail, acc, n, false, pairs) == Parsed(acc + Backslashes(n) + arg, tail)
    decreases |arg|
  {
    if arg == "" {
      assert arg + tail == tail;
      assert acc + Backslashes(n) + arg == acc + Backslashes(n);
    } else {
      assert (arg + tail)[1..] == arg[1..] + tail && !NeedsQuotes(arg[0]);
      if arg[0] == '\\' {
        PlainParses(arg[1..], acc, n + 1, tail, pairs);
        assert acc + Backslashes(n + 1) + arg[1..] == acc + Backslashes(n) + arg;
      } else {
        var acc' := acc + Backslashes(n) + [arg[0]];
        PlainParses(arg[1..], acc', 0, tail, pairs);
        assert acc' + Backslashes(0) + arg[1..] == acc + Backslashes(n) + arg;
      }
    }
  }

  /** One character and the body after it, behind a run of backslashes. */
  lemma ReadBehindRun(k: nat, c: char, body: string, tail: string, acc: string, pairs: bool)
    requires c != '\\'
    ensures
      var s := (Backslashes(k) + ([c] + body)) + tail;
      && ParseArg(s, acc, 0, true, pairs) == ParseArg([c] + (body + tail), acc, k, true, pairs)
      && ([c] + (body + tail))[0] == c && ([c] + (body + tail))[1..] == body + tail
  {
    Regroup(Backslashes(k), [c] + body, tail);
    Regroup([c], body, tail);
    ReadRun(k, [c] + (body + tail), acc, 0, true, pairs);
  }

  lemma ClosingParses(n: nat, acc: string, tail: string, pairs: bool)
    requires EndsArgument(tail)
    ensures ParseArg(Backslashes(2 * n) + (['"'] + tail), acc, 0, true, pairs) == Parsed(acc + Backslashes(n), tail)
  {
    var closing := ['"'] + tail;
    ReadRun(2 * n, closing, acc, 0, true, pairs);
    assert closing[1..] == tail;
    PlainParses("", acc + Backslashes(n), 0, tail, pairs);
    assert "" + tail == tail;
    assert acc + Backslashes(n) + Backslashes(0) + "" == acc + Backslashes(n);
  }

  lemma QuotesAround(body: string, tail: string)
    ensures (['"'] + body + ['"']) + tail == ['"'] + (body + (['"'] + tail))
    ensures (['"'] + (body + (['"'] + tail)))[1..] == body + (['"'] + tail)
  {}

  /** The heart of the round trip: an escaped body and its closing quote read back as the text. */
  lemma {:induction false} EscapedParses(arg: string, n: nat, acc: string, tail: string, pairs: bool)
    requires EndsArgument(tail)
    ensures ParseArg(Escaped(arg, n) + (['"'] + tail), acc, 0, true, pairs) == Parsed(acc + Backslashes(n) + arg, tail)
    decreases |arg|
  {
    var closing := ['"'] + tail;
    if arg == "" {
      ClosingParses(n, acc, tail, pairs);
      assert acc + Backslashes(n) + arg == acc + Backslashes(n);
    } else if arg[0] == '\\' {
      EscapedParses(arg[1..], n + 1, acc, tail, pairs);
      assert acc + Backslashes(n + 1) + arg[1..] == acc + Backslashes(n) + arg;
    } else {
      var k := if arg[0] == '"' then 2 * n + 1 else n;
      var acc' := acc + Backslashes(n) + [arg[0]];
      ReadBehindRun(k, arg[0], Escaped(arg[1..], 0), closing, acc, pairs);
      EscapedParses(arg[1..], 0, acc', tail, pairs);
      assert acc' + Backslashes(0) + arg[1..] == acc + Backslashes(n) + arg;
    }
  }

  /** Whatever the argument, what it is quoted to parses back to it and leaves the rest alone. */
  lemma QuotedParses(arg: string, tail: string, pairs: bool)
    requires EndsArgument(tail)
    ensures ParseArg(Quoted(arg) + tail, "", 0, false, pairs) == Parsed(arg, tail)
    ensures Quoted(arg) != "" && !IsBlank(Quoted(arg)[0])
  {
    assert "" + Backslashes(0) + arg == arg;
    if Plain(arg) {
      assert !NeedsQuotes(arg[0]);
      PlainParses(arg, "", 0, tail, pairs);
    } else {
      QuotesAround(Escaped(arg, 0), tail);
      assert "" + Backslashes(0) == "";
      EscapedParses(arg, 0, "", tail, pairs);
    }
  }

  /** An argument without blanks, newlines, tabs and quotes travels bare, and every other inside quotes. */
  lemma QuotedOnlyWhereNeeded(arg: string)
    ensures
      var bare := arg != "" && ' ' !in arg && '\t' !in arg && '\n' !in arg && '\U{B}' !in arg && '"' !in arg;
      if bare then Quoted(arg) == arg
      else |Quoted(arg)| >= 2 && Quoted(arg)[0] == '"' && Quoted(arg)[|Quoted(arg)| - 1] == '"'
  {
    hide Escaped;
    if Plain(arg) {
      assert forall i :: 0 <= i < |arg| ==> !NeedsQuotes(arg[i]);
    } else if arg != "" {
      var i :| 0 <= i < |arg| && NeedsQuotes(arg[i]);
      assert arg[i] in arg;
    }
  }

  // ---------------------------------------------------------------- the whole line

  /** One more argument is one space and its quoting more. */
  lemma {:induction false} LineGrows(argv: seq<string>, arg: string)
    ensures LineOf(argv + [arg]) == if argv == [] then Quoted(arg) else LineOf(argv) + " " + Quoted(arg)
  {
    hide Quoted;
    if argv == [] {
      assert [] + [arg] == [arg] && [arg][1..] == [];
      assert Quoted(arg) + "" == Quoted(arg);
    } else {
      SpacedGrows(argv[1..], arg);
      assert (argv + [arg])[1..] == argv[1..] + [arg];
      Regroup(Quoted(argv[0]), Spaced(argv[1..]), " " + Quoted(arg));
      Regroup(LineOf(argv), " ", Quoted(arg));
    }
  }

  lemma {:induction false} SpacedGrows(args: seq<string>, arg: string)
    ensures Spaced(args + [arg]) == Spaced(args) + (" " + Quoted(arg))
  {
    hide Quoted;
    if args == [] {
      assert [] + [arg] == [arg] && [arg][1..] == [];
      assert [' '] + Quoted(arg) + "" == "" + (" " + Quoted(arg));
    } else {
      SpacedGrows(args[1..], arg);
      assert (args + [arg])[1..] == args[1..] + [arg];
      Regroup([' '] + Quoted(args[0]), Spaced(args[1..]), " " + Quoted(arg));
    }
  }

  lemma {:induction false} SpacedSplits(args: seq<string>, pairs: bool)
    ensures Split(Spaced(args), pairs) == args
    ensures EndsArgument(Spaced(args))
  {
    if args != [] {
      var line := Quoted(args[0]) + Spaced(args[1..]);
      Regroup([' '], Quoted(args[0]), Spaced(args[1..]));
      assert ([' '] + line)[1..] == line;
      SpacedSplits(args[1..], pairs);
      LineSplits(args[0], args[1..], pairs);
    }
  }

  lemma LineSplits(first: string, others: seq<string>, pairs: bool)
    requires Split(Spaced(others), pairs) == others && EndsArgument(Spaced(others))
    ensures Split(Quoted(first) + Spaced(others), pairs) == [first] + others
  {
    hide Quoted, Spaced;
    QuotedParses(first, Spaced(others), pairs);
  }

  /** The round trip: every list of arguments, of any text, survives the command line. */
  lemma ArgumentsSurvive(args: seq<string>, pairs: bool)
    ensures Split(LineOf(args), pairs) == args
  {
    if args != [] {
      SpacedSplits(args[1..], pairs);
      LineSplits(args[0], args[1..], pairs);
    }
  }

  // ---------------------------------------------------------------- the program name

  /** The run of backslashes a text ends in, after `n` before it. */
  function TrailingRun(s: string, n: nat): nat {
    if s == "" then n
    else TrailingRun(s[1..], if s[0] == '\\' then n + 1 else 0)
  }

  /** A program name its own rules read back: no quote in it, no trailing backslash inside quotes. */
  predicate ProgramSurvives(program: string) {
    '"' !in program && (Plain(program) || program == "" || program[|program| - 1] != '\\')
  }

  lemma {:induction false} TrailingRunIsZero(s: string, n: nat)
    ensures TrailingRun(s, n) == 0 <==> if s == "" then n == 0 else s[|s| - 1] != '\\'
  {
    if s != "" {
      TrailingRunIsZero(s[1..], if s[0] == '\\' then n + 1 else 0);
    }
  }

  /** Without quotes of its own a text only has its trailing backslashes doubled. */
  lemma {:induction false} EscapedWithoutQuotes(s: string, n: nat)
    requires '"' !in s
    ensures Escaped(s, n) == Backslashes(n) + s + Backslashes(TrailingRun(s, n))
    decreases |s|
  {
    if s != "" {
      assert s[0] in s && forall c :: c in s[1..] ==> c in s;
      EscapedWithoutQuotes(s[1..], if s[0] == '\\' then n + 1 else 0);
      assert [s[0]] + s[1..] == s;
    }
  }

  lemma {:induction false} ProgramReadsThrough(s: string, tail: string, acc: string, inQuotes: bool)
    requires '"' !in s && (inQuotes || forall i :: 0 <= i < |s| ==> !IsBlank(s[i]))
    ensures ParseProgram(s + tail, acc, inQuotes) == ParseProgram(tail, acc + s, inQuotes)
    decreases |s|
  {
    if s == "" {
      assert s + tail == tail && acc + s == acc;
    } else {
      assert (s + tail)[1..] == s[1..] + tail && s[0] in s;
      assert forall c :: c in s[1..] ==> c in s;
      ProgramReadsThrough(s[1..], tail, acc + [s[0]], inQuotes);
      assert acc + [s[0]] + s[1..] == acc + s;
    }
  }

  lemma PlainProgramParses(program: string, tail: string)
    requires EndsArgument(tail) && Plain(program)
    ensures ParseProgram(Quoted(program) + tail, "", false) == Parsed(program, tail)
  {
    forall i | 0 <= i < |program| ensures program[i] != '"' && !IsBlank(program[i]) {
      assert !NeedsQuotes(program[i]);
    }
    ProgramReadsThrough(program, tail, "", false);
    assert "" + program == program;
  }

  lemma BodyReadsThrough(body: string, tail: string)
    requires EndsArgument(tail) && '"' !in body
    ensures ParseProgram((['"'] + body + ['"']) + tail, "", false) == Parsed(body, tail)
  {
    QuotesAround(body, tail);
    ProgramReadsThrough(body, ['"'] + tail, "", true);
    assert "" + body == body && (['"'] + tail)[1..] == tail;
  }

  lemma QuotedProgramParses(program: string, tail: string)
    requires EndsArgument(tail) && '"' !in program && !Plain(program)
    ensures ParseProgram(Quoted(program) + tail, "", false)
              == Parsed(program + Backslashes(TrailingRun(program, 0)), tail)
  {
    var body := program + Backslashes(TrailingRun(program, 0));
    EscapedWithoutQuotes(program, 0);
    assert Backslashes(0) + program == program;
    BodyReadsThrough(body, tail);
  }

  /** The backslashes a program name gains on the way through. */
  function Gained(program: string): nat {
    if Plain(program) then 0 else TrailingRun(program, 0)
  }

  lemma LineReadsBack(argv: seq<string>, pairs: bool)
    requires argv != [] && '"' !in argv[0]
    ensures ParseLine(LineOf(argv), pairs) == [argv[0] + Backslashes(Gained(argv[0]))] + argv[1..]
  {
    hide Quoted, Spaced, Split, ParseProgram, Plain, TrailingRun;
    var program, tail := argv[0], Spaced(argv[1..]);
    SpacedSplits(argv[1..], pairs);
    if Plain(program) {
      PlainProgramParses(program, tail);
      assert program + Backslashes(0) == program;
    } else {
      QuotedProgramParses(program, tail);
    }
  }

  lemma GainsNothingExactly(program: string)
    requires '"' !in program
    ensures Gained(program) == 0 <==> ProgramSurvives(program)
  {
    TrailingRunIsZero(program, 0);
  }

  /**
    Including the program name, the vector read back is the vector given exactly when the program
    name survives its own rules; `quoteArg` treats it like any other argument.
  */
  lemma VectorSurvivesExactly(argv: seq<string>, pairs: bool)
    requires argv != []
    ensures ParseLine(LineOf(argv), pairs) == argv <==> ProgramSurvives(argv[0])
    ensures '"' !in argv[0] ==> ParseLine(LineOf(argv), pairs)[1..] == argv[1..]
  {
    hide LineOf, Split, ParseProgram, Plain, Gained;
    if '"' in argv[0] {
      assert ParseLine(LineOf(argv), pairs)[0] != argv[0];
    } else {
      LineReadsBack(argv, pairs);
      GainsNothingExactly(argv[0]);
      assert |argv[0] + Backslashes(Gained(argv[0]))| == |argv[0]| + Gained(argv[0]);
      if Gained(argv[0]) == 0 {
        assert argv[0] + Backslashes(0) == argv[0];
        assert argv == [argv[0]] + argv[1..];
      }
    }
  }

  /** A name that does not: with a blank in it, and a backslash at its end, it comes back with one more. */
  lemma NameGainsABackslash(pairs: bool)
    ensures ParseLine(LineOf(["a b\\"]), pairs) == ["a b\\\\"]
  {
    var name := "a b\\";
    LineReadsBack([name], pairs);
    assert !Plain(name) by { assert NeedsQuotes(name[1]); }
    assert TrailingRun(name, 0) == 1;
    hide ParseLine, LineOf;
    assert name + Backslashes(1) == "a b\\\\";
  }

  // ---------------------------------------------------------------- the algorithms

  method QuoteArg(arg: string) returns (out: string)
    ensures out == Quoted(arg)
  {
    if Plain(arg) {
      return arg;
    }
    out := ['"'];
    var it := 0;
    while true
      invariant it <= |arg| && out + Escaped(arg[it..], 0) == ['"'] + Escaped(arg, 0)
      decreases |arg| - it
    {
      var backslashes := 0;
      while it < |arg| && arg[it] == '\\'
        invariant it <= |arg| && out + Escaped(arg[it..], backslashes) == ['"'] + Escaped(arg, 0)
      {
        assert arg[it..][1..] == arg[it + 1..];
        it := it + 1;
        backslashes := backslashes + 1;
      }
      if it == |arg| {
        out := out + Backslashes(backslashes * 2);
        break;
      }
      assert arg[it..][1..] == arg[it + 1..];
      var run := if arg[it] == '"' then backslashes * 2 + 1 else backslashes;
      Regroup(out, Backslashes(run), [arg[it]] + Escaped(arg[it + 1..], 0));
      Regroup(out + Backslashes(run), [arg[it]], Escaped(arg[it + 1..], 0));
      if arg[it] == '"' {
        out := out + Backslashes(backslashes * 2 + 1);
        out := out + ['"'];
      } else {
        out := out + Backslashes(backslashes);
        out := out + [arg[it]];
      }
      it := it + 1;
    }
    out := out + ['"'];
  }

  lemma {:induction false} SpacedSnoc(args: seq<string>, last: string)
    ensures Spaced(args + [last]) == Spaced(args) + ([' '] + Quoted(last))
  {
    hide Quoted;
    if args != [] {
      SpacedSnoc(args[1..], last);
      assert (args + [last])[1..] == args[1..] + [last];
      Regroup([' '] + Quoted(args[0]), Spaced(args[1..]), [' '] + Quoted(last));
    }
  }

  lemma LineSnoc(argv: seq<string>, last: string)
    ensures LineOf(argv + [last]) == (if argv == [] then "" else LineOf(argv) + [' ']) + Quoted(last)
  {
    hide Quoted;
    if argv != [] {
      assert (argv + [last])[1..] == argv[1..] + [last];
      SpacedSnoc(argv[1..], last);
      Regroup(Quoted(argv[0]), Spaced(argv[1..]), [' '] + Quoted(last));
      Regroup(LineOf(argv), [' '], Quoted(last));
    }
  }

  method BuildCommandLine(argv: seq<string>) returns (line: string)
    ensures line == LineOf(argv)
  {
    hide Quoted, LineOf;
    line := "";
    assert LineOf([]) == "" by { LineOfNone(); }
    for i := 0 to |argv|
      invariant line == LineOf(argv[..i])
      invariant line == "" <==> i == 0
    {
      assert argv[..i + 1] == argv[..i] + [argv[i]];
      LineSnoc(argv[..i], argv[i]);
      var quoted := QuoteArg(argv[i]);
      QuotedParses(argv[i], "", false);
      if line != "" {
        line := line + [' '];
      }
      line := line + quoted;
    }
    assert argv[..|argv|] == argv;
  }

  lemma LineOfNone()
    ensures LineOf([]) == ""
  {}
}
