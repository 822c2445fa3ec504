/**
  The return check of a diagram (make_diagrams.py, `check`): a forgiving call stack, on which a
  return answers the innermost open call between its endpoints and drops whatever is above it.
*/
module ReturnCheck {
  import opened Diagram

  datatype Open = Open(source: string, target: string)

  predicate IsCall(row: Row) {
    row.Msg? && row.arrow == CALL
  }

  /** Every other arrow claims to be an answer. */
  predicate IsReturn(row: Row) {
    row.Msg? && row.arrow != CALL
  }

  // ---------------------------------------------------------------- what a correct diagram is

  /** Row `r` may answer row `c`: an earlier call between the same participants, the other way round. */
  predicate Matches(rows: seq<Row>, c: nat, r: nat) {
    && c < r < |rows| && IsCall(rows[c]) && IsReturn(rows[r])
    && rows[c].source == rows[r].target && rows[c].target == rows[r].source
  }

  /**
    Answers to some of the first `n` rows' returns, none crossing another: a call made between
    a call and its answer is over by then, and one call has at most one answer.
  */
  predicate NonCrossing(rows: seq<Row>, n: nat, answers: map<nat, nat>) {
    && (forall r :: r in answers ==> r < n && Matches(rows, answers[r], r))
    && (forall q, r :: q in answers && r in answers && q < r ==> answers[r] < answers[q] || q < answers[r])
  }

  predicate AnswersAll(rows: seq<Row>, n: nat, answers: map<nat, nat>)
    requires n <= |rows|
  {
    NonCrossing(rows, n, answers) && forall r :: 0 <= r < n && IsReturn(rows[r]) ==> r in answers
  }

  // ---------------------------------------------------------------- the greedy stack, by row

  /** The innermost of the open calls `stack` that row `r` may answer, or the stack's size. */
  function Innermost(rows: seq<Row>, stack: seq<nat>, r: nat): (depth: nat)
    ensures depth <= |stack|
    ensures depth < |stack| ==> Matches(rows, stack[depth], r)
    ensures forall i :: (if depth < |stack| then depth + 1 else 0) <= i < |stack| ==> !Matches(rows, stack[i], r)
  {
    InnermostBelow(rows, stack, r, |stack|)
  }

  function InnermostBelow(rows: seq<Row>, stack: seq<nat>, r: nat, n: nat): (depth: nat)
    requires n <= |stack|
    requires forall i :: n <= i < |stack| ==> !Matches(rows, stack[i], r)
    ensures depth <= |stack|
    ensures depth < |stack| ==> Matches(rows, stack[depth], r)
    ensures forall i :: (if depth < |stack| then depth + 1 else 0) <= i < |stack| ==> !Matches(rows, stack[i], r)
  {
    if n == 0 then |stack|
    else if Matches(rows, stack[n - 1], r) then n - 1
    else InnermostBelow(rows, stack, r, n - 1)
  }

  /** The rows of the calls open after the first `n` rows. */
  function OpenAfter(rows: seq<Row>, n: nat): (stack: seq<nat>)
    requires n <= |rows|
    ensures forall i :: 0 <= i < |stack| ==> stack[i] < n && IsCall(rows[stack[i]])
    ensures forall i, j :: 0 <= i < j < |stack| ==> stack[i] < stack[j]
  {
    if n == 0 then []
    else
      var stack := OpenAfter(rows, n - 1);
      if IsCall(rows[n - 1]) then stack + [n - 1]
      else if IsReturn(rows[n - 1]) then
        var depth := Innermost(rows, stack, n - 1);
        if depth < |stack| then stack[..depth] else stack
      else stack
  }

  /** A return nobody is waiting for when it comes. */
  predicate Unanswering(rows: seq<Row>, r: nat)
    requires r < |rows|
  {
    IsReturn(rows[r]) && Innermost(rows, OpenAfter(rows, r), r) == |OpenAfter(rows, r)|
  }

  function FaultsOf(rows: seq<Row>, n: nat): seq<nat>
    requires n <= |rows|
  {
    if n == 0 then []
    else FaultsOf(rows, n - 1) + (if Unanswering(rows, n - 1) then [n - 1] else [])
  }

  // ---------------------------------------------------------------- soundness

  /** What the greedy stack answered among the first `n` rows. */
  function GreedyAnswers(rows: seq<Row>, n: nat): map<nat, nat>
    requires n <= |rows|
  {
    if n == 0 then map[]
    else
      var before := GreedyAnswers(rows, n - 1);
      if !IsReturn(rows[n - 1]) || Unanswering(rows, n - 1) then before
      else
        var stack := OpenAfter(rows, n - 1);
        before[n - 1 := stack[Innermost(rows, stack, n - 1)]]
  }

  /** Open calls and the spans of given answers are apart. */
  predicate Apart(answers: map<nat, nat>, stack: seq<nat>) {
    forall q, i :: q in answers && 0 <= i < |stack| ==> stack[i] < answers[q] || q < stack[i]
  }

  lemma AnswerAdded(rows: seq<Row>, n: nat, answers: map<nat, nat>, stack: seq<nat>, depth: nat)
    requires NonCrossing(rows, n, answers) && Apart(answers, stack)
    requires depth < |stack| && Matches(rows, stack[depth], n)
    requires forall i, j :: 0 <= i < j < |stack| ==> stack[i] < stack[j]
    ensures NonCrossing(rows, n + 1, answers[n := stack[depth]])
    ensures Apart(answers[n := stack[depth]], stack[..depth])
  {
    hide Matches;
    var more, c := answers[n := stack[depth]], stack[depth];
    forall q | q in answers ensures q < n && more[q] == answers[q] && (c < answers[q] || q < c) {}
  }

  /** Its answers never cross, and no call still open lies under one of them. */
  lemma {:induction false} GreedyNeverCrosses(rows: seq<Row>, n: nat)
    requires n <= |rows|
    ensures NonCrossing(rows, n, GreedyAnswers(rows, n))
    ensures Apart(GreedyAnswers(rows, n), OpenAfter(rows, n))
  {
    hide Innermost, Matches, NonCrossing, Apart;
    if n == 0 {
      NothingCrosses(rows);
    } else {
      GreedyNeverCrosses(rows, n - 1);
      var before, stack := GreedyAnswers(rows, n - 1), OpenAfter(rows, n - 1);
      if IsReturn(rows[n - 1]) && !Unanswering(rows, n - 1) {
        AnswerAdded(rows, n - 1, before, stack, Innermost(rows, stack, n - 1));
      } else {
        NothingAdded(rows, n - 1, before, stack);
        assert OpenAfter(rows, n) == stack || OpenAfter(rows, n) == stack + [n - 1];
      }
    }
  }

  lemma NothingCrosses(rows: seq<Row>)
    ensures NonCrossing(rows, 0, map[]) && Apart(map[], [])
  {}

  lemma NothingAdded(rows: seq<Row>, n: nat, answers: map<nat, nat>, stack: seq<nat>)
    requires NonCrossing(rows, n, answers) && Apart(answers, stack)
    ensures NonCrossing(rows, n + 1, answers) && Apart(answers, stack) && Apart(answers, stack + [n])
  {
    hide Matches;
  }

  lemma {:induction false} GreedyAnswersTheRest(rows: seq<Row>, n: nat, r: nat)
    requires n <= |rows| && r < n && IsReturn(rows[r]) && !Unanswering(rows, r)
    ensures r in GreedyAnswers(rows, n)
  {
    hide Innermost, Matches, OpenAfter;
    if r < n - 1 {
      GreedyAnswersTheRest(rows, n - 1, r);
    }
  }

  // ---------------------------------------------------------------- completeness

  /** A call some answer among the first `n` rows has closed or left behind. */
  predicate Closed(answers: map<nat, nat>, n: nat, c: nat) {
    exists r :: r in answers && r < n && answers[r] <= c < r
  }

  lemma ReturnStep(rows: seq<Row>, r: nat)
    requires r < |rows| && IsReturn(rows[r])
    ensures
      var stack := OpenAfter(rows, r);
      var depth := Innermost(rows, stack, r);
      && OpenAfter(rows, r + 1) == (if depth < |stack| then stack[..depth] else stack)
      && FaultsOf(rows, r + 1) == FaultsOf(rows, r) + (if depth == |stack| then [r] else [])
  {}

  /** A return drops nothing below an open call that it could answer. */
  lemma ReturnKeepsBelow(rows: seq<Row>, r: nat, a: nat, c: nat)
    requires r < |rows| && IsReturn(rows[r]) && Matches(rows, a, r)
    requires a in OpenAfter(rows, r) && c in OpenAfter(rows, r) && c < a
    ensures c in OpenAfter(rows, r + 1)
  {
    hide Matches;
    var stack := OpenAfter(rows, r);
    var depth := Innermost(rows, stack, r);
    hide OpenAfter;
    assert OpenAfter(rows, r + 1) == if depth < |stack| then stack[..depth] else stack by { ReturnStep(rows, r); }
    var i :| 0 <= i < |stack| && stack[i] == c;
    var j :| 0 <= j < |stack| && stack[j] == a;
    assert i < j <= depth;
    assert depth < |stack| ==> stack[..depth][i] == c;
  }

  /**
    Whatever non-crossing answers are chosen, every call they leave open is open on the greedy
    stack too: choosing the innermost call never closes more than any other choice.
  */
  lemma {:induction false} GreedyKeepsMoreOpen(rows: seq<Row>, answers: map<nat, nat>, n: nat, c: nat)
    requires n <= |rows| && NonCrossing(rows, |rows|, answers)
    requires forall r :: 0 <= r < n && IsReturn(rows[r]) ==> r in answers
    requires c < n && IsCall(rows[c]) && !Closed(answers, n, c)
    ensures c in OpenAfter(rows, n)
    decreases n, 0
  {
    hide Innermost, Matches;
    if c < n - 1 {
      assert !Closed(answers, n - 1, c);
      GreedyKeepsMoreOpen(rows, answers, n - 1, c);
      if IsReturn(rows[n - 1]) {
        hide OpenAfter, IsReturn, IsCall;
        AnswerIsOpen(rows, answers, n - 1);
        ReturnKeepsBelow(rows, n - 1, answers[n - 1], c);
      }
    }
  }

  /** The call an assignment answers is still open on the greedy stack when the answer comes. */
  lemma {:induction false} AnswerIsOpen(rows: seq<Row>, answers: map<nat, nat>, r: nat)
    requires r < |rows| && NonCrossing(rows, |rows|, answers) && r in answers
    requires forall q :: 0 <= q < r && IsReturn(rows[q]) ==> q in answers
    ensures answers[r] in OpenAfter(rows, r)
    decreases r, 1
  {
    assert Matches(rows, answers[r], r);
    assert !Closed(answers, r, answers[r]);
    GreedyKeepsMoreOpen(rows, answers, r, answers[r]);
  }

  lemma {:induction false} FaultsAreUnanswering(rows: seq<Row>, n: nat)
    requires n <= |rows|
    ensures forall r: nat :: r in FaultsOf(rows, n) <==> r < n && Unanswering(rows, r)
    decreases n
  {
    if n > 0 {
      FaultsAreUnanswering(rows, n - 1);
    }
  }

  /** The check is exact: no fault exactly when some non-crossing assignment answers every return. */
  lemma NoFaultExactly(rows: seq<Row>)
    ensures FaultsOf(rows, |rows|) == [] <==> exists answers :: AnswersAll(rows, |rows|, answers)
  {
    var faults := FaultsOf(rows, |rows|);
    assert faults != [] ==> faults[0] in faults;
    FaultsAreUnanswering(rows, |rows|);
    if faults == [] {
      GreedyNeverCrosses(rows, |rows|);
      forall r | 0 <= r < |rows| && IsReturn(rows[r]) ensures r in GreedyAnswers(rows, |rows|) {
        GreedyAnswersTheRest(rows, |rows|, r);
      }
      assert AnswersAll(rows, |rows|, GreedyAnswers(rows, |rows|));
    }
    if answers :| AnswersAll(rows, |rows|, answers) {
      forall r: nat | r < |rows| && IsReturn(rows[r]) ensures !Unanswering(rows, r) {
        AnswerIsOpen(rows, answers, r);
        var stack := OpenAfter(rows, r);
        var j :| 0 <= j < |stack| && stack[j] == answers[r];
        assert Matches(rows, stack[j], r);
      }
    }
  }

  // ---------------------------------------------------------------- in the rows' own terms

  /** Row `r` is a dashed arrow back to where the solid arrow of row `c`, above it, came from. */
  predicate GoesBack(rows: seq<Row>, c: nat, r: nat) {
    && c < r < |rows| && rows[c].Msg? && rows[c].arrow == "call" && rows[r].Msg? && rows[r].arrow != "call"
    && rows[r].source == rows[c].target && rows[r].target == rows[c].source
  }

  /** Every dashed arrow goes back along a solid one of its own, and whatever begins between the two is over by then. */
  predicate Explains(rows: seq<Row>, back: map<nat, nat>) {
    && (forall r: nat :: r < |rows| && rows[r].Msg? && rows[r].arrow != "call" ==> r in back)
    && (forall r :: r in back ==> GoesBack(rows, back[r], r))
    && (forall q, r :: q in back && r in back && back[r] < back[q] < r ==> q < r)
    && (forall q, r :: q in back && r in back && q != r ==> back[q] != back[r])
  }

  lemma ExplainsIsAnswersAll(rows: seq<Row>, back: map<nat, nat>)
    ensures Explains(rows, back) <==> AnswersAll(rows, |rows|, back)
  {
    assert forall c: nat, r: nat :: GoesBack(rows, c, r) <==> Matches(rows, c, r);
    hide GoesBack, Matches;
    BackIsEarlier(rows, back);
    if AnswersAll(rows, |rows|, back) {
      forall r: nat | r < |rows| && rows[r].Msg? && rows[r].arrow != "call" ensures r in back {
        assert IsReturn(rows[r]);
      }
    }
    if Explains(rows, back) {
      forall r | 0 <= r < |rows| && IsReturn(rows[r]) ensures r in back {}
    }
  }

  lemma BackIsEarlier(rows: seq<Row>, back: map<nat, nat>)
    ensures forall r :: r in back && GoesBack(rows, back[r], r) ==> back[r] < r < |rows|
  {}

  /** A diagram passes the check exactly when every dashed arrow in it can be so explained. */
  lemma PassesExactly(rows: seq<Row>)
    ensures FaultsOf(rows, |rows|) == [] <==> exists back :: Explains(rows, back)
  {
    NoFaultExactly(rows);
    hide FaultsOf, AnswersAll, Explains;
    if answers :| AnswersAll(rows, |rows|, answers) {
      ExplainsIsAnswersAll(rows, answers);
    }
    if back :| Explains(rows, back) {
      ExplainsIsAnswersAll(rows, back);
    }
  }

  // ---------------------------------------------------------------- the algorithm

  function Ends(row: Row): Open {
    if row.Msg? then Open(row.source, row.target) else Open("", "")
  }

  ghost function Pairs(rows: seq<Row>, stack: seq<nat>): (pairs: seq<Open>)
    requires forall i :: 0 <= i < |stack| ==> stack[i] < |rows|
    ensures |pairs| == |stack|
    ensures forall i :: 0 <= i < |stack| ==> pairs[i] == Ends(rows[stack[i]])
  {
    seq(|stack|, i requires 0 <= i < |stack| => Ends(rows[stack[i]]))
  }

  /** The depth of the innermost `wanted` on the stack, or -1. */
  method FindOpen(stack: seq<Open>, wanted: Open) returns (depth: int)
    ensures -1 <= depth < |stack|
    ensures depth >= 0 ==> stack[depth] == wanted
    ensures forall i :: depth < i < |stack| ==> stack[i] != wanted
  {
    depth := |stack| - 1;
    while depth >= 0 && stack[depth] != wanted
      invariant -1 <= depth < |stack| && forall i :: depth < i < |stack| ==> stack[i] != wanted
    {
      depth := depth - 1;
    }
  }

  lemma PairsPush(rows: seq<Row>, stack: seq<nat>, r: nat)
    requires r < |rows| && rows[r].Msg? && forall i :: 0 <= i < |stack| ==> stack[i] < r
    ensures Pairs(rows, stack + [r]) == Pairs(rows, stack) + [Open(rows[r].source, rows[r].target)]
  {}

  lemma PairsFindInnermost(rows: seq<Row>, r: nat, depth: int)
    requires r < |rows| && IsReturn(rows[r])
    requires
      var stack := Pairs(rows, OpenAfter(rows, r));
      var wanted := Open(rows[r].target, rows[r].source);
      && -1 <= depth < |stack| && (depth >= 0 ==> stack[depth] == wanted)
      && forall i :: depth < i < |stack| ==> stack[i] != wanted
    ensures Innermost(rows, OpenAfter(rows, r), r) == if depth >= 0 then depth else |OpenAfter(rows, r)|
  {
    var pending := OpenAfter(rows, r);
    var stack := Pairs(rows, pending);
    forall i | 0 <= i < |pending|
      ensures Matches(rows, pending[i], r) <==> stack[i] == Open(rows[r].target, rows[r].source)
    {
      assert pending[i] < r && IsCall(rows[pending[i]]);
    }
  }

  /** The faulty returns, by row. */
  method CheckReturns(rows: seq<Row>) returns (faults: seq<nat>)
    ensures faults == FaultsOf(rows, |rows|)
    ensures faults == [] <==> exists back :: Explains(rows, back)
  {
    PassesExactly(rows);
    hide Innermost, Matches, Pairs, Ends;
    faults := [];
    var stack: seq<Open> := [];
    for r := 0 to |rows|
      invariant faults == FaultsOf(rows, r)
      invariant stack == Pairs(rows, OpenAfter(rows, r))
    {
      if !rows[r].Msg? {
        continue;
      }
      if rows[r].arrow == CALL {
        stack := stack + [Open(rows[r].source, rows[r].target)];
        PairsPush(rows, OpenAfter(rows, r), r);
        continue;
      }
      var depth := FindOpen(stack, Open(rows[r].target, rows[r].source));
      PairsFindInnermost(rows, r, depth);
      assert Unanswering(rows, r) <==> depth < 0;
      if depth >= 0 {
        stack := stack[..depth];
      } else {
        faults := faults + [r];
      }
    }
  }
}
