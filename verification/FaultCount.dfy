/**
  How many faults the return check counts (make_diagrams.py, `check`): never fewer than some
  choice of answers would leave, and at most one more for each call it dropped and missed later.
*/
module FaultCount {
  import opened Diagram
  import opened ReturnCheck

  // ---------------------------------------------------------------- rows by their participants

  /** The call a row is, or the one it claims to answer. */
  function Claimed(row: Row): Open {
    if IsReturn(row) then Open(row.target, row.source) else Ends(row)
  }

  /** Of the rows `some`, those of the call `claimed`. */
  function Of(rows: seq<Row>, some: set<nat>, claimed: Open): set<nat>
    requires forall r :: r in some ==> r < |rows|
  {
    set r | r in some && Claimed(rows[r]) == claimed
  }

  function Returns(rows: seq<Row>, n: nat): (claims: set<nat>)
    requires n <= |rows|
    ensures forall r: nat :: r in claims <==> r < n && IsReturn(rows[r])
  {
    set r: nat | r < n && IsReturn(rows[r])
  }

  function Calls(rows: seq<Row>, n: nat): (calls: set<nat>)
    requires n <= |rows|
    ensures forall c: nat :: c in calls <==> c < n && IsCall(rows[c])
  {
    set c: nat | c < n && IsCall(rows[c])
  }

  function Faulty(rows: seq<Row>, n: nat): (faulty: set<nat>)
    requires n <= |rows|
    ensures forall r: nat :: r in faulty <==> r < n && Unanswering(rows, r)
  {
    set r: nat | r < n && Unanswering(rows, r)
  }

  /** The returns among the first `n` rows that `answers` leaves unanswered. */
  function Unanswered(rows: seq<Row>, n: nat, answers: map<nat, nat>): (claims: set<nat>)
    requires n <= |rows|
    ensures forall r: nat :: r in claims <==> r < n && IsReturn(rows[r]) && r !in answers
  {
    set r: nat | r < n && IsReturn(rows[r]) && r !in answers
  }

  /** Call `c` was dropped unanswered, and return `r` found nobody waiting when `c` might have been. */
  predicate Missed(rows: seq<Row>, c: nat, r: nat) {
    r < |rows| && Unanswering(rows, r) && Matches(rows, c, r) && c !in GreedyAnswers(rows, r).Values
  }

  predicate MissedBy(rows: seq<Row>, n: nat, c: nat) {
    exists r :: 0 <= r < n && Missed(rows, c, r)
  }

  /** The calls among the first `n` rows that were dropped and missed. */
  function Wasted(rows: seq<Row>, n: nat): (calls: set<nat>)
    requires n <= |rows|
    ensures forall c: nat :: c in calls <==> c < n && MissedBy(rows, n, c)
  {
    set c: nat | c < n && MissedBy(rows, n, c)
  }

  // ---------------------------------------------------------------- counting

  lemma {:induction false} CountDistinct(some: set<nat>, others: set<nat>, answers: map<nat, nat>)
    requires forall r :: r in some ==> r in answers && answers[r] in others
    requires forall q, r :: q in some && r in some && q < r ==> answers[q] != answers[r]
    ensures |some| <= |others|
  {
    if r :| r in some {
      CountDistinct(some - {r}, others - {answers[r]}, answers);
    }
  }

  lemma {:induction false} CountImage(calls: set<nat>, claims: set<nat>, answers: map<nat, nat>)
    requires forall c :: c in calls ==> exists r :: r in claims && r in answers && answers[r] == c
    ensures |calls| <= |claims|
  {
    if c :| c in calls {
      var r :| r in claims && r in answers && answers[r] == c;
      CountImage(calls - {c}, claims - {r}, answers);
    }
  }

  /** Sizes compare if they do call by call. */
  lemma {:induction false} CountByCall(rows: seq<Row>, some: set<nat>, others: set<nat>)
    requires forall r :: r in some ==> r < |rows|
    requires forall r :: r in others ==> r < |rows|
    requires forall claimed :: |Of(rows, some, claimed)| <= |Of(rows, others, claimed)|
    ensures |some| <= |others|
  {
    hide Claimed;
    if r :| r in some {
      var claimed := Claimed(rows[r]);
      var part, other := Of(rows, some, claimed), Of(rows, others, claimed);
      assert r in part;
      forall c ensures |Of(rows, some - part, c)| <= |Of(rows, others - other, c)| {
        assert c != claimed ==> Of(rows, some - part, c) == Of(rows, some, c);
        assert c != claimed ==> Of(rows, others - other, c) == Of(rows, others, c);
        assert c == claimed ==> Of(rows, some - part, c) == {};
      }
      CountByCall(rows, some - part, others - other);
    }
  }

  // ---------------------------------------------------------------- one call's returns

  /** Up to a fault, other answers to its call's returns are to that call's earlier calls. */
  lemma AnsweredAtMostCalled(rows: seq<Row>, n: nat, answers: map<nat, nat>, last: nat, claimed: Open)
    requires n <= |rows| && NonCrossing(rows, n, answers)
    requires last < n && IsReturn(rows[last])
    ensures
      |Of(rows, Returns(rows, last + 1) - Unanswered(rows, n, answers), claimed)| <= |Of(rows, Calls(rows, last), claimed)|
  {
    var answered := Of(rows, Returns(rows, last + 1) - Unanswered(rows, n, answers), claimed);
    forall r | r in answered ensures r in answers && answers[r] in Of(rows, Calls(rows, last), claimed) {
      assert Matches(rows, answers[r], r);
    }
    CountDistinct(answered, Of(rows, Calls(rows, last), claimed), answers);
  }

  /** The calls a faulty return could have answered were answered, or were wasted. */
  lemma CalledAtMostAnswered(rows: seq<Row>, n: nat, last: nat)
    requires last < n <= |rows| && Unanswering(rows, last)
    ensures
      var claimed := Claimed(rows[last]);
      && |Of(rows, Calls(rows, last) - Wasted(rows, n), claimed)|
         <= |Of(rows, Returns(rows, last) - Faulty(rows, last), claimed)|
  {
    hide Unanswering, NonCrossing, Apart, GreedyAnswers;
    var claimed, answers := Claimed(rows[last]), GreedyAnswers(rows, last);
    var calls := Of(rows, Calls(rows, last) - Wasted(rows, n), claimed);
    var claims := Of(rows, Returns(rows, last) - Faulty(rows, last), claimed);
    forall c | c in calls ensures exists r :: r in claims && r in answers && answers[r] == c {
      assert IsReturn(rows[last]) by { FaultIsReturn(rows, last); }
      assert !Missed(rows, c, last);
      var r :| r in answers && answers[r] == c;
      GreedyAnswerIsSound(rows, last, r);
    }
    CountImage(calls, claims, answers);
  }

  lemma FaultIsReturn(rows: seq<Row>, r: nat)
    requires r < |rows| && Unanswering(rows, r)
    ensures IsReturn(rows[r])
  {}

  lemma {:induction false} GreedyAnswerIsSound(rows: seq<Row>, n: nat, r: nat)
    requires n <= |rows| && r in GreedyAnswers(rows, n)
    ensures r < n && IsReturn(rows[r]) && !Unanswering(rows, r) && Matches(rows, GreedyAnswers(rows, n)[r], r)
  {
    hide Innermost, Matches;
    if r != n - 1 || !IsReturn(rows[n - 1]) || Unanswering(rows, n - 1) {
      GreedyAnswerIsSound(rows, n - 1, r);
    }
  }

  lemma SizeOfRest(all: set<nat>, some: set<nat>)
    ensures |all| <= |all - some| + |some|
  {
    assert all <= (all - some) + some;
    SizeOfSubset(all, (all - some) + some);
  }

  lemma SizeOfSubset(some: set<nat>, all: set<nat>)
    requires some <= all
    ensures |some| <= |all|
  {
    assert all == some + (all - some);
  }

  lemma {:induction false} Latest(rows: set<nat>) returns (last: nat)
    requires rows != {}
    ensures last in rows && forall r :: r in rows ==> r <= last
  {
    var r :| r in rows;
    last := r;
    if rows != {r} {
      var before := Latest(rows - {r});
      last := if before < r then r else before;
      assert forall q :: q in rows ==> q == r || q in rows - {r};
    }
  }

  lemma ClaimsAtMost(rows: seq<Row>, n: nat, answers: map<nat, nat>, last: nat, claimed: Open)
    requires n <= |rows| && NonCrossing(rows, n, answers) && last < n && IsReturn(rows[last])
    ensures |Of(rows, Returns(rows, last + 1), claimed)|
            <= |Of(rows, Calls(rows, last), claimed)| + |Of(rows, Unanswered(rows, n, answers), claimed)|
  {
    hide NonCrossing, Claimed, IsReturn, IsCall;
    AnsweredAtMostCalled(rows, n, answers, last, claimed);
    var claims, unanswered := Returns(rows, last + 1), Unanswered(rows, n, answers);
    assert Of(rows, claims, claimed) - Of(rows, unanswered, claimed) == Of(rows, claims - unanswered, claimed);
    SizeOfRest(Of(rows, claims, claimed), Of(rows, unanswered, claimed));
  }

  lemma CallsAtMost(rows: seq<Row>, n: nat, last: nat)
    requires last < n <= |rows| && Unanswering(rows, last)
    ensures
      var claimed := Claimed(rows[last]);
      && |Of(rows, Calls(rows, last), claimed)|
         <= |Of(rows, Returns(rows, last) - Faulty(rows, last), claimed)| + |Of(rows, Wasted(rows, n), claimed)|
  {
    hide Claimed, IsReturn, IsCall, Unanswering, MissedBy;
    var claimed := Claimed(rows[last]);
    CalledAtMostAnswered(rows, n, last);
    var calls, wasted := Calls(rows, last), Wasted(rows, n);
    assert Of(rows, calls, claimed) - Of(rows, wasted, claimed) == Of(rows, calls - wasted, claimed);
    SizeOfRest(Of(rows, calls, claimed), Of(rows, wasted, claimed));
  }

  /** Up to the last fault of a call, its returns are the answered ones and all its faults. */
  lemma ClaimsAre(rows: seq<Row>, n: nat, last: nat, claimed: Open)
    requires n <= |rows| && last in Of(rows, Faulty(rows, n), claimed)
    requires forall r :: r in Of(rows, Faulty(rows, n), claimed) ==> r <= last
    ensures |Of(rows, Returns(rows, last + 1), claimed)|
            == |Of(rows, Returns(rows, last) - Faulty(rows, last), claimed)| + |Of(rows, Faulty(rows, n), claimed)|
  {
    hide Innermost, OpenAfter, IsReturn;
    var answered, faulty := Of(rows, Returns(rows, last) - Faulty(rows, last), claimed), Of(rows, Faulty(rows, n), claimed);
    assert Of(rows, Returns(rows, last + 1), claimed) == answered + faulty;
  }

  /** Among the returns of one call: as many faults as it left unanswered and wasted, or fewer. */
  lemma FaultsOfCall(rows: seq<Row>, n: nat, answers: map<nat, nat>, claimed: Open)
    requires n <= |rows| && NonCrossing(rows, n, answers)
    ensures
      |Of(rows, Faulty(rows, n), claimed)| <= |Of(rows, Unanswered(rows, n, answers) + Wasted(rows, n), claimed)|
  {
    hide NonCrossing, MissedBy, Claimed, Unanswering, IsCall, IsReturn;
    var faulty := Of(rows, Faulty(rows, n), claimed);
    if faulty != {} {
      var last := Latest(faulty);
      FaultIsReturn(rows, last);
      ClaimsAtMost(rows, n, answers, last, claimed);
      CallsAtMost(rows, n, last);
      ClaimsAre(rows, n, last, claimed);
      WastedAreCalls(rows, n);
      var unanswered, wasted := Unanswered(rows, n, answers), Wasted(rows, n);
      assert Of(rows, unanswered + wasted, claimed) == Of(rows, unanswered, claimed) + Of(rows, wasted, claimed);
      assert Of(rows, unanswered, claimed) !! Of(rows, wasted, claimed);
    }
  }

  lemma WastedAreCalls(rows: seq<Row>, n: nat)
    requires n <= |rows|
    ensures forall c :: c in Wasted(rows, n) ==> !IsReturn(rows[c])
  {
    hide Unanswering, GreedyAnswers;
  }

  // ---------------------------------------------------------------- all of them

  lemma {:induction false} FaultsAreFaulty(rows: seq<Row>, n: nat)
    requires n <= |rows|
    ensures |FaultsOf(rows, n)| == |Faulty(rows, n)|
  {
    hide Unanswering;
    if n > 0 {
      FaultsAreFaulty(rows, n - 1);
      assert Faulty(rows, n) == Faulty(rows, n - 1) + if Unanswering(rows, n - 1) then {n - 1} else {};
    } else {
      assert Faulty(rows, 0) == {};
    }
  }

  /**
    Every table, every choice of answers: the check counts no more faults than the choice leaves
    unanswered, but for the calls it dropped and whose own returns then found nobody waiting.
  */
  lemma FaultCountIsBounded(rows: seq<Row>, n: nat, answers: map<nat, nat>)
    requires n <= |rows| && NonCrossing(rows, n, answers)
    ensures |FaultsOf(rows, n)| <= |Unanswered(rows, n, answers)| + |Wasted(rows, n)|
  {
    var others := Unanswered(rows, n, answers) + Wasted(rows, n);
    forall claimed ensures |Of(rows, Faulty(rows, n), claimed)| <= |Of(rows, others, claimed)| {
      FaultsOfCall(rows, n, answers, claimed);
    }
    hide FaultsOf, NonCrossing, Of;
    CountByCall(rows, Faulty(rows, n), others);
    FaultsAreFaulty(rows, n);
    SizeOfRest(others, Wasted(rows, n));
    SizeOfSubset(others - Wasted(rows, n), Unanswered(rows, n, answers));
  }

  /** No return drops an open call: each that is answered answers the top of the stack. */
  predicate NothingDropped(rows: seq<Row>, n: nat)
    requires n <= |rows|
  {
    forall r :: 0 <= r < n && IsReturn(rows[r]) && !Unanswering(rows, r) ==>
      Innermost(rows, OpenAfter(rows, r), r) == |OpenAfter(rows, r)| - 1
  }

  lemma CallsStayOpenOrAnswered(rows: seq<Row>, n: nat)
    requires n < |rows| && NothingDropped(rows, n + 1)
    ensures forall c :: c in OpenAfter(rows, n) ==>
              c in OpenAfter(rows, n + 1) || c in GreedyAnswers(rows, n + 1).Values
    ensures forall c :: c in GreedyAnswers(rows, n).Values ==> c in GreedyAnswers(rows, n + 1).Values
  {
    hide Innermost, Matches;
    var stack, before, after := OpenAfter(rows, n), GreedyAnswers(rows, n), GreedyAnswers(rows, n + 1);
    assert n !in before by { GreedyIsEarlier(rows, n); }
    forall c | c in before.Values ensures c in after.Values {
      var r :| r in before && before[r] == c;
      assert after[r] == c;
    }
    if IsReturn(rows[n]) && !Unanswering(rows, n) {
      assert stack == stack[..|stack| - 1] + [stack[|stack| - 1]];
      assert after[n] == stack[|stack| - 1];
    }
  }

  lemma GreedyIsEarlier(rows: seq<Row>, n: nat)
    requires n <= |rows|
    ensures forall r :: r in GreedyAnswers(rows, n) ==> r < n
  {
    forall r | r in GreedyAnswers(rows, n) ensures r < n {
      GreedyAnswerIsSound(rows, n, r);
    }
  }

  lemma {:induction false} CallsOpenOrAnswered(rows: seq<Row>, n: nat, c: nat)
    requires n <= |rows| && NothingDropped(rows, n) && c < n && IsCall(rows[c])
    ensures c in OpenAfter(rows, n) || c in GreedyAnswers(rows, n).Values
  {
    hide GreedyAnswers, Unanswering, Innermost;
    if c < n - 1 {
      CallsOpenOrAnswered(rows, n - 1, c);
      CallsStayOpenOrAnswered(rows, n - 1);
    }
  }

  lemma NothingWasted(rows: seq<Row>, n: nat)
    requires n <= |rows| && NothingDropped(rows, n)
    ensures Wasted(rows, n) == {}
  {
    hide OpenAfter, GreedyAnswers;
    forall c: nat, r: nat | c < n && r < n ensures !Missed(rows, c, r) {
      if Matches(rows, c, r) && Unanswering(rows, r) {
        CallsOpenOrAnswered(rows, r, c);
      }
    }
  }

  /** What the stack answered leaves just the faults, so their count is that of a real choice. */
  lemma FaultsAreWhatItLeaves(rows: seq<Row>, n: nat)
    requires n <= |rows|
    ensures NonCrossing(rows, n, GreedyAnswers(rows, n))
    ensures |FaultsOf(rows, n)| == |Unanswered(rows, n, GreedyAnswers(rows, n))|
  {
    GreedyNeverCrosses(rows, n);
    FaultsAreFaulty(rows, n);
    hide FaultsOf, NonCrossing, GreedyAnswers, Innermost;
    forall r: nat | r < n ensures r in Unanswered(rows, n, GreedyAnswers(rows, n)) <==> r in Faulty(rows, n) {
      if r in GreedyAnswers(rows, n) {
        GreedyAnswerIsSound(rows, n, r);
      } else if IsReturn(rows[r]) && !Unanswering(rows, r) {
        GreedyAnswersTheRest(rows, n, r);
      }
    }
    assert Unanswered(rows, n, GreedyAnswers(rows, n)) == Faulty(rows, n);
  }

  /** Where no return drops an open call, the count of faults is the least of any choice. */
  lemma FaultCountIsLeast(rows: seq<Row>, n: nat, answers: map<nat, nat>)
    requires n <= |rows| && NothingDropped(rows, n) && NonCrossing(rows, n, answers)
    ensures |FaultsOf(rows, n)| <= |Unanswered(rows, n, answers)|
  {
    FaultCountIsBounded(rows, n, answers);
    NothingWasted(rows, n);
  }

  // ---------------------------------------------------------------- where it is not the least

  const OVERTAKEN: seq<Row> := [
    Msg("a", "b", "call", ""), Msg("c", "d", "call", ""), Msg("e", "f", "call", ""),
    Msg("b", "a", "ret", ""), Msg("f", "e", "ret", ""), Msg("d", "c", "ret", "")]

  /**
    The number of faults is not the least possible: here the outer call's early return drops two
    calls and their returns become two faults, where leaving that one return unanswered gives one.
  */
  lemma FaultCountIsNotLeast()
    ensures FaultsOf(OVERTAKEN, 6) == [4, 5]
    ensures NonCrossing(OVERTAKEN, 6, map[4 := 2, 5 := 1])
    ensures Unanswered(OVERTAKEN, 6, map[4 := 2, 5 := 1]) == {3}
  {
    assert Unanswered(OVERTAKEN, 6, map[4 := 2, 5 := 1]) == {3};
    OvertakenOpens();
    NoFaultsYet();
    OthersNeverCross();
    hide OpenAfter, FaultsOf, NonCrossing, Innermost;
    DroppedCallsFail(OVERTAKEN);
  }

  /** Three open calls, and returns of which the first answers the outermost. */
  lemma DroppedCallsFail(rows: seq<Row>)
    requires |rows| == 6 && forall r :: 3 <= r < 6 ==> IsReturn(rows[r])
    requires OpenAfter(rows, 3) == [0, 1, 2] && Innermost(rows, [0, 1, 2], 3) == 0
    requires FaultsOf(rows, 3) == []
    ensures FaultsOf(rows, 6) == [4, 5]
  {
    hide IsReturn, Innermost, OpenAfter, FaultsOf;
    ReturnStep(rows, 3);
    assert OpenAfter(rows, 4) == [] && FaultsOf(rows, 4) == [];
    ReturnStep(rows, 4);
    assert Innermost(rows, [], 4) == 0;
    assert OpenAfter(rows, 5) == [] && FaultsOf(rows, 5) == [4];
    ReturnStep(rows, 5);
    assert Innermost(rows, [], 5) == 0;
  }

  lemma OthersNeverCross()
    ensures NonCrossing(OVERTAKEN, 6, map[4 := 2, 5 := 1])
  {}

  lemma OvertakenOpens()
    ensures OpenAfter(OVERTAKEN, 3) == [0, 1, 2]
    ensures Innermost(OVERTAKEN, [0, 1, 2], 3) == 0
  {
    assert OpenAfter(OVERTAKEN, 1) == [0];
    assert OpenAfter(OVERTAKEN, 2) == [0, 1];
    assert Matches(OVERTAKEN, 0, 3);
  }

  lemma NoFaultsYet()
    ensures FaultsOf(OVERTAKEN, 3) == []
  {
    assert FaultsOf(OVERTAKEN, 1) == [];
    assert FaultsOf(OVERTAKEN, 2) == [];
  }

  const CROSSED: seq<Row> := [
    Msg("a", "b", "call", ""), Msg("c", "d", "call", ""), Msg("b", "a", "ret", ""), Msg("d", "c", "ret", "")]

  /** A call dropped and missed need not cost anything: here its answer crosses the other one. */
  lemma WasteMayCostNothing(answers: map<nat, nat>)
    requires NonCrossing(CROSSED, 4, answers)
    ensures FaultsOf(CROSSED, 4) == [3] && 1 in Wasted(CROSSED, 4)
    ensures |Unanswered(CROSSED, 4, answers)| >= 1
  {
    CrossedFails();
    assert 1 in Wasted(CROSSED, 4) by { CrossedWastes(); }
    NoFaultExactly(CROSSED);
    hide FaultsOf, NonCrossing;
    assert Unanswered(CROSSED, 4, answers) == {} ==> AnswersAll(CROSSED, 4, answers);
  }

  lemma CrossedOpens()
    ensures OpenAfter(CROSSED, 2) == [0, 1]
    ensures Innermost(CROSSED, [0, 1], 2) == 0
  {
    assert OpenAfter(CROSSED, 1) == [0];
    assert Matches(CROSSED, 0, 2) && !Matches(CROSSED, 1, 2);
  }

  lemma CrossedStartsWell()
    ensures FaultsOf(CROSSED, 2) == []
  {
    assert FaultsOf(CROSSED, 1) == [];
  }

  lemma CrossedFails()
    ensures FaultsOf(CROSSED, 4) == [3]
    ensures Unanswering(CROSSED, 3)
  {
    CrossedOpens();
    CrossedStartsWell();
    hide OpenAfter, FaultsOf, Innermost;
    ReturnStep(CROSSED, 2);
    assert OpenAfter(CROSSED, 3) == [] && FaultsOf(CROSSED, 3) == [];
    ReturnStep(CROSSED, 3);
    assert Innermost(CROSSED, [], 3) == 0;
  }

  lemma CrossedWastes()
    ensures Missed(CROSSED, 1, 3)
  {
    CrossedFails();
    hide GreedyAnswers, Unanswering;
    forall r | r in GreedyAnswers(CROSSED, 3) ensures GreedyAnswers(CROSSED, 3)[r] != 1 {
      GreedyAnswerIsSound(CROSSED, 3, r);
    }
  }
}
