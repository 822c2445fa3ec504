/**
  The incremental line splitter of the child's output (child_stream.cpp, `readLoop` and
  `readStderrLoop`): bytes arrive in chunks of any size, complete lines go out as they form.
*/
module LineSplitter {
  import opened Laws

  const NEWLINE: char := '\n'
  const RETURN: char := '\r'

  /** The position of the first newline, or the length. */
  function Find(s: string): (pos: nat)
    ensures pos <= |s| && (pos < |s| ==> s[pos] == NEWLINE)
    ensures forall i :: 0 <= i < pos ==> s[i] != NEWLINE
  {
    if s == "" || s[0] == NEWLINE then 0 else 1 + Find(s[1..])
  }

  /** The complete lines of a text, without their newlines. */
  function LinesOf(s: string): seq<string>
    decreases |s|
  {
    var pos := Find(s);
    if pos == |s| then [] else [s[..pos]] + LinesOf(s[pos + 1..])
  }

  /** What follows the last newline. */
  function TailOf(s: string): string
    decreases |s|
  {
    var pos := Find(s);
    if pos == |s| then s else TailOf(s[pos + 1..])
  }

  /** Lines as they were written, each with its newline. */
  function Joined(lines: seq<string>): string {
    if lines == [] then "" else lines[0] + [NEWLINE] + Joined(lines[1..])
  }

  /** On Windows a line also loses one trailing carriage return. */
  function Cleaned(line: string, windows: bool): string {
    if windows && line != "" && line[|line| - 1] == RETURN then line[..|line| - 1] else line
  }

  function AllCleaned(lines: seq<string>, windows: bool): (r: seq<string>)
    ensures |r| == |lines| && forall i :: 0 <= i < |r| ==> r[i] == Cleaned(lines[i], windows)
  {
    seq(|lines|, i requires 0 <= i < |lines| => Cleaned(lines[i], windows))
  }

  lemma FindAcross(s: string, t: string)
    ensures Find(s + t) == if Find(s) < |s| then Find(s) else |s| + Find(t)
  {
    if Find(s) < |s| {
      assert (s + t)[Find(s)] == NEWLINE;
    } else if Find(t) < |t| {
      assert (s + t)[|s| + Find(t)] == NEWLINE;
    }
    assert forall i :: 0 <= i < |s| ==> (s + t)[i] == s[i];
    assert forall i :: 0 <= i < |t| ==> (s + t)[|s| + i] == t[i];
  }

  lemma CutAt(s: string, pos: nat)
    requires pos < |s|
    ensures s == s[..pos] + [s[pos]] + s[pos + 1..]
  {}

  lemma FirstLine(s: string)
    ensures var pos := Find(s);
            if pos == |s| then LinesOf(s) == [] && TailOf(s) == s && NEWLINE !in s
            else && LinesOf(s) == [s[..pos]] + LinesOf(s[pos + 1..]) && TailOf(s) == TailOf(s[pos + 1..])
                 && NEWLINE !in s[..pos] && s == s[..pos] + [NEWLINE] + s[pos + 1..]
  {
    hide Find;
    if Find(s) < |s| {
      CutAt(s, Find(s));
    }
  }

  /** Splitting may stop anywhere and go on from the tail. */
  lemma {:induction false} SplitResumes(s: string, t: string)
    ensures LinesOf(s + t) == LinesOf(s) + LinesOf(TailOf(s) + t)
    ensures TailOf(s + t) == TailOf(TailOf(s) + t)
    decreases |s|
  {
    hide LinesOf, TailOf, Find;
    FirstLine(s);
    var pos := Find(s);
    if pos < |s| {
      var line, rest := s[..pos], s[pos + 1..];
      FindAcross(s, t);
      FirstLine(s + t);
      assert (s + t)[..pos] == line && (s + t)[pos + 1..] == rest + t;
      SplitResumes(rest, t);
      Regroup([line], LinesOf(rest), LinesOf(TailOf(rest) + t));
    }
  }

  lemma JoinedCons(line: string, lines: seq<string>)
    ensures Joined([line] + lines) == line + [NEWLINE] + Joined(lines)
  {}

  /** Nothing is lost, added or reordered: the lines and the tail are the bytes. */
  lemma {:induction false} LinesAndTailAreTheText(s: string)
    ensures Joined(LinesOf(s)) + TailOf(s) == s
    ensures forall line :: line in LinesOf(s) ==> NEWLINE !in line
    ensures NEWLINE !in TailOf(s)
    decreases |s|
  {
    hide LinesOf, TailOf, Find, Joined;
    FirstLine(s);
    var pos := Find(s);
    if pos == |s| {
      assert Joined([]) + s == s by { JoinedNone(); }
    } else {
      var line, rest := s[..pos], s[pos + 1..];
      LinesAndTailAreTheText(rest);
      JoinedCons(line, LinesOf(rest));
      Regroup(line + [NEWLINE], Joined(LinesOf(rest)), TailOf(rest));
    }
  }

  lemma JoinedNone()
    ensures Joined([]) == ""
  {}

  /** And only one splitting is: whatever lines and tail make up the bytes are the ones delivered. */
  lemma {:induction false} SplittingIsUnique(lines: seq<string>, tail: string)
    requires (forall i :: 0 <= i < |lines| ==> NEWLINE !in lines[i]) && NEWLINE !in tail
    ensures LinesOf(Joined(lines) + tail) == lines && TailOf(Joined(lines) + tail) == tail
    decreases |lines|
  {
    if lines == [] {
      assert Joined(lines) + tail == tail;
      assert Find(tail) == |tail|;
    } else {
      var rest := Joined(lines[1..]) + tail;
      assert Joined(lines) + tail == lines[0] + ([NEWLINE] + rest);
      assert Find(lines[0]) == |lines[0]| && Find([NEWLINE] + rest) == 0;
      FindAcross(lines[0], [NEWLINE] + rest);
      assert (lines[0] + ([NEWLINE] + rest))[|lines[0]| + 1..] == rest;
      assert (lines[0] + ([NEWLINE] + rest))[..|lines[0]|] == lines[0];
      SplittingIsUnique(lines[1..], tail);
    }
  }

  /** One pipe's reader: the partial line it holds, and what its handler was given. */
  class Reader {
    const windows: bool
    var partial: string
    var delivered: seq<string>
    ghost var received: string

    /** The delivered lines depend on the bytes alone, not on how they were chunked. */
    ghost predicate Valid()
      reads this
    {
      && partial == TailOf(received)
      && delivered == AllCleaned(LinesOf(received), windows)
    }

    constructor (windows: bool)
      ensures Valid() && received == "" && this.windows == windows
    {
      this.windows := windows;
      partial, delivered, received := "", [], "";
    }

    /**
      Off Windows the delivered lines, each with its newline, and the partial one are the bytes; on it
      each delivered line is one of the bytes' lines less the one carriage return it may end in.
    */
    lemma DeliveredIsTheText()
      requires Valid()
      ensures !windows ==> Joined(delivered) + partial == received
      ensures |delivered| == |LinesOf(received)|
      ensures windows ==> forall i :: 0 <= i < |delivered| ==>
                var line := LinesOf(received)[i];
                if |line| > 0 && line[|line| - 1] == '\r' then delivered[i] + "\r" == line else delivered[i] == line
      ensures forall i :: 0 <= i < |delivered| ==> '\n' !in delivered[i]
      ensures '\n' !in partial
    {
      hide LinesOf, TailOf, Joined;
      LinesAndTailAreTheText(received);
      CleanedAlone(LinesOf(received), windows);
    }

    /** Delivers the lines complete so far, leaving the tail. */
    method Deliver()
      modifies this
      ensures received == old(received)
      ensures partial == TailOf(old(partial))
      ensures delivered == old(delivered) + AllCleaned(LinesOf(old(partial)), windows)
    {
      hide LinesOf, TailOf, Find;
      ghost var pending, sent: seq<string> := partial, [];
      var pos := Find(partial);
      while pos < |partial|
        invariant received == old(received) && pos == Find(partial)
        invariant sent + LinesOf(partial) == LinesOf(pending) && TailOf(partial) == TailOf(pending)
        invariant delivered == old(delivered) + AllCleaned(sent, windows)
        decreases |partial|
      {
        var line := partial[..pos];
        FirstLine(partial);
        Regroup(sent, [line], LinesOf(partial[pos + 1..]));
        CleanedTogether(sent, [line], windows);
        Regroup(old(delivered), AllCleaned(sent, windows), [Cleaned(line, windows)]);
        sent := sent + [line];
        if windows && line != "" && line[|line| - 1] == RETURN {
          line := line[..|line| - 1];
        }
        delivered := delivered + [line];
        partial := partial[pos + 1..];
        pos := Find(partial);
      }
      FirstLine(partial);
      assert sent + [] == sent;
    }

    method Feed(chunk: string)
      requires Valid()
      modifies this
      ensures Valid() && received == old(received) + chunk
      ensures delivered == old(delivered) + AllCleaned(LinesOf(old(partial) + chunk), windows)
    {
      SplitResumes(received, chunk);
      CleanedTogether(LinesOf(received), LinesOf(partial + chunk), windows);
      partial := partial + chunk;
      Deliver();
      received := received + chunk;
    }
  }

  lemma CleanedAlone(lines: seq<string>, windows: bool)
    ensures |AllCleaned(lines, windows)| == |lines|
    ensures !windows ==> AllCleaned(lines, windows) == lines
    ensures forall i :: 0 <= i < |lines| ==>
              var line, cleaned := lines[i], AllCleaned(lines, windows)[i];
              && (forall c :: c in cleaned ==> c in line)
              && (windows ==> if |line| > 0 && line[|line| - 1] == '\r' then cleaned + "\r" == line else cleaned == line)
  {}

  lemma CleanedTogether(s: seq<string>, t: seq<string>, windows: bool)
    ensures AllCleaned(s + t, windows) == AllCleaned(s, windows) + AllCleaned(t, windows)
  {}
}
