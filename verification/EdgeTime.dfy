/**
  The edge timer (measurements.cpp, `edgeTime`): how long the first clean traverse from at or
  below one level to at or above another takes, and the falling edge read off the negated record.
*/
module EdgeTime {
  import opened Histogram
  import opened Crossings

  // ---------------------------------------------------------------- specification

  /** The last of the first `n` samples at or below `low`, or -1. */
  function LastAtOrBelow(v: seq<real>, low: real, n: nat): (p: int)
    requires n <= |v|
    ensures -1 <= p < n
    ensures p >= 0 ==> v[p] <= low
    ensures forall q :: p < q < n ==> v[q] > low
  {
    if n == 0 then -1
    else if v[n - 1] <= low then n - 1
    else LastAtOrBelow(v, low, n - 1)
  }

  /** Sample `i` ends a traverse: above `low`, at or above `high`, with a sample at or below `low` before it. */
  predicate Ends(v: seq<real>, low: real, high: real, i: nat)
    requires i < |v|
  {
    v[i] > low && v[i] >= high && LastAtOrBelow(v, low, i) >= 0
  }

  /** The first sample from `i` on that ends a traverse, or the record's length. */
  function FirstEnd(v: seq<real>, low: real, high: real, i: nat): (e: nat)
    requires i <= |v|
    ensures i <= e <= |v|
    ensures e < |v| ==> Ends(v, low, high, e)
    ensures forall j :: i <= j < e ==> !Ends(v, low, high, j)
    decreases |v| - i
  {
    if i == |v| || Ends(v, low, high, i) then i else FirstEnd(v, low, high, i + 1)
  }

  function CrossedAt(v: seq<real>, level: real, before: nat): real
    requires before + 1 < |v|
  {
    before as real + FractionAt(v[before], v[before + 1], level)
  }

  /** From the last sample at or below `low` to the first that ends the traverse. */
  function EdgeTimeOf(v: seq<real>, interval: real, low: real, high: real): Result<real> {
    var e := FirstEnd(v, low, high, 0);
    if e == |v| then Unmeasurable(NoCompleteEdge)
    else
      var s := LastAtOrBelow(v, low, e);
      Ok(Seconds(CrossedAt(v, high, e - 1), interval) - Seconds(CrossedAt(v, low, s), interval))
  }

  // ---------------------------------------------------------------- properties

  /** A traverse exists exactly when some sample at or above `high` follows one at or below `low`. */
  lemma EdgeExistsExactly(v: seq<real>, interval: real, low: real, high: real)
    requires low < high
    ensures EdgeTimeOf(v, interval, low, high).Ok? <==>
              exists p, i :: 0 <= p < i < |v| && v[p] <= low && v[i] >= high
  {
    hide CrossedAt, Seconds;
    var e := FirstEnd(v, low, high, 0);
    if e < |v| {
      assert v[LastAtOrBelow(v, low, e)] <= low && v[e] >= high;
    }
    forall p, i | 0 <= p < i < |v| && v[p] <= low && v[i] >= high ensures e < |v| {
      assert Ends(v, low, high, i);
    }
  }

  /** Between its two ends a traverse stays strictly between the levels, so neither rescan moves. */
  lemma TraverseStaysBetween(v: seq<real>, low: real, high: real, q: nat)
    requires
      var e := FirstEnd(v, low, high, 0);
      e < |v| && LastAtOrBelow(v, low, e) < q < e
    ensures low < v[q] < high
  {
    var e := FirstEnd(v, low, high, 0);
    var s := LastAtOrBelow(v, low, e);
    assert v[s] <= low && v[q] > low;
    assert LastAtOrBelow(v, low, q) >= s;
    assert !Ends(v, low, high, q);
  }

  lemma FractionOrder(before: real, after: real, low: real, high: real)
    requires before < after && low < high
    ensures FractionAt(before, after, low) < FractionAt(before, after, high)
  {
    var span := after - before;
    var g := (high - before) / span;
    assert g * span == high - before;
    QuotientOrder(low - before, span, g);
  }

  lemma FractionUpTo(before: real, after: real, level: real)
    requires before < level <= after
    ensures 0.0 < FractionAt(before, after, level) <= 1.0
  {
    FractionOrder(before, after, before, level);
    if level < after {
      FractionOrder(before, after, level, after);
    }
  }

  /** The edge begins before it ends. */
  lemma EdgeBeginsBeforeItEnds(v: seq<real>, low: real, high: real)
    requires low < high && FirstEnd(v, low, high, 0) < |v|
    ensures
      var e := FirstEnd(v, low, high, 0);
      CrossedAt(v, low, LastAtOrBelow(v, low, e)) < CrossedAt(v, high, e - 1)
  {
    hide FractionAt;
    var e := FirstEnd(v, low, high, 0);
    var s := LastAtOrBelow(v, low, e);
    FractionWithin(v[s], v[s + 1], low);
    if s == e - 1 {
      FractionOrder(v[s], v[e], low, high);
    } else {
      TraverseStaysBetween(v, low, high, e - 1);
      FractionUpTo(v[e - 1], v[e], high);
    }
  }

  lemma EdgeTimeIsPositive(v: seq<real>, interval: real, low: real, high: real)
    requires low < high && interval > 0.0 && EdgeTimeOf(v, interval, low, high).Ok?
    ensures EdgeTimeOf(v, interval, low, high).value > 0.0
  {
    hide CrossedAt, Seconds;
    EdgeBeginsBeforeItEnds(v, low, high);
    var e := FirstEnd(v, low, high, 0);
    SecondsOrder(CrossedAt(v, low, LastAtOrBelow(v, low, e)), CrossedAt(v, high, e - 1), interval);
  }

  // ---------------------------------------------------------------- what is timed

  /** The record gets from at or below `low` at sample `s`, by samples strictly between, to at or above `high` at `e`. */
  predicate Rises(v: seq<real>, low: real, high: real, s: nat, e: nat) {
    && s < e < |v| && v[s] <= low && high <= v[e]
    && forall q :: s < q < e ==> low < v[q] < high
  }

  /** No sample at or above `high` before `e` comes after one at or below `low`. */
  predicate FirstRise(v: seq<real>, low: real, high: real, e: nat) {
    forall p, i :: 0 <= p < i < e && i < |v| && v[p] <= low ==> v[i] < high
  }

  /** The first complete rise, and where the straight lines between its samples pass through the two levels. */
  predicate RiseSpans(v: seq<real>, low: real, high: real, s: nat, e: nat, p: real, q: real) {
    Rises(v, low, high, s, e) && FirstRise(v, low, high, e) && OnTheLine(v, s + 1, p, low) && OnTheLine(v, e, q, high)
  }

  /** What is timed is the first complete rise, from the line through the one level to the line through the other. */
  lemma EdgeEndsOnTheLine(v: seq<real>, interval: real, low: real, high: real)
    requires low < high && EdgeTimeOf(v, interval, low, high).Ok?
    ensures exists s: nat, e: nat, p: real, q: real ::
              RiseSpans(v, low, high, s, e, p, q)
              && EdgeTimeOf(v, interval, low, high).value == q * interval - p * interval
  {
    hide FractionAt, OnTheLine, Rises, FirstRise, Ends;
    var e := FirstEnd(v, low, high, 0);
    EndsRise(v, low, high);
    var s := LastAtOrBelow(v, low, e);
    var p, q := CrossedAt(v, low, s), CrossedAt(v, high, e - 1);
    NoEarlierRise(v, low, high);
    assert OnTheLine(v, s + 1, p, low) by { PlacedOnTheLine(v, s + 1, low); }
    assert OnTheLine(v, e, q, high) by { PlacedOnTheLine(v, e, high); }
    assert RiseSpans(v, low, high, s, e, p, q);
    SecondsAre(p, interval);
    SecondsAre(q, interval);
  }

  /** The pairs the two ends are interpolated in straddle the levels. */
  lemma EndsRise(v: seq<real>, low: real, high: real)
    requires low < high && FirstEnd(v, low, high, 0) < |v|
    ensures
      var e := FirstEnd(v, low, high, 0);
      var s := LastAtOrBelow(v, low, e);
      0 <= s < e && Rises(v, low, high, s, e) && v[s] <= low < v[s + 1] && v[e - 1] < high <= v[e]
  {
    var e := FirstEnd(v, low, high, 0);
    assert Ends(v, low, high, e);
    var s := LastAtOrBelow(v, low, e);
    forall q | s < q < e ensures low < v[q] < high {
      TraverseStaysBetween(v, low, high, q);
    }
  }

  lemma NoEarlierRise(v: seq<real>, low: real, high: real)
    requires low < high
    ensures FirstRise(v, low, high, FirstEnd(v, low, high, 0))
  {
    var e := FirstEnd(v, low, high, 0);
    forall p, i | 0 <= p < i < e && v[p] <= low ensures v[i] < high {
      assert !Ends(v, low, high, i);
    }
  }

  /** A steady ramp: the same step from each sample to the next. */
  predicate Ramp(v: seq<real>, step: real) {
    forall i :: 0 < i < |v| ==> v[i] == v[i - 1] + step
  }

  lemma {:induction false} RampLine(v: seq<real>, step: real, k: nat)
    requires Ramp(v, step) && k < |v|
    ensures v[k] == v[0] + k as real * step
  {
    if k > 0 {
      RampLine(v, step, k - 1);
      assert k as real * step == (k - 1) as real * step + step;
    }
  }

  lemma RampAt(v: seq<real>, step: real, k: nat, p: real, level: real)
    requires Ramp(v, step) && OnTheLine(v, k, p, level)
    ensures v[0] + p * step == level
  {
    RampLine(v, step, k - 1);
    assert (p - (k - 1) as real) * step == p * step - (k - 1) as real * step;
  }

  /** On it the edge time is the rise between the levels over the step, in sample intervals. */
  lemma RampIsTimedExactly(v: seq<real>, interval: real, low: real, high: real, step: real)
    requires low < high && step > 0.0 && Ramp(v, step) && EdgeTimeOf(v, interval, low, high).Ok?
    ensures EdgeTimeOf(v, interval, low, high).value == (high - low) / step * interval
  {
    hide OnTheLine, EdgeTimeOf, Rises, FirstRise, Ramp;
    EdgeEndsOnTheLine(v, interval, low, high);
    var s: nat, e: nat, p: real, q: real :|
      RiseSpans(v, low, high, s, e, p, q) && EdgeTimeOf(v, interval, low, high).value == q * interval - p * interval;
    RampAt(v, step, s + 1, p, low);
    RampAt(v, step, e, q, high);
    SpanOfRamp(q, p, step, interval, high - low);
  }

  lemma SpanOfRamp(q: real, p: real, step: real, interval: real, rise: real)
    requires step > 0.0 && q * step - p * step == rise
    ensures q * interval - p * interval == rise / step * interval
  {
    assert (q - p) * step == rise;
    var x := rise / step;
    assert x * step == rise;
    assert (q - p - x) * step == 0.0;
    assert q - p == x;
    assert (q - p) * interval == q * interval - p * interval;
  }

  // ---------------------------------------------------------------- the algorithm

  /** The end of the run of samples at or below `low` that holds `from`. */
  method LastOfRun(v: seq<real>, low: real, from: nat) returns (lowAt: nat)
    requires from < |v| && v[from] <= low
    ensures from <= lowAt < |v| && forall q :: from <= q <= lowAt ==> v[q] <= low
    ensures lowAt + 1 < |v| ==> v[lowAt + 1] > low
  {
    lowAt := from;
    while lowAt + 1 < |v| && v[lowAt + 1] <= low
      invariant from <= lowAt < |v|
      invariant forall q :: from <= q <= lowAt ==> v[q] <= low
    {
      lowAt := lowAt + 1;
    }
  }

  method FindEdgeTime(v: seq<real>, interval: real, low: real, high: real) returns (r: Result<real>)
    ensures r == EdgeTimeOf(v, interval, low, high)
  {
    hide FractionAt, Seconds;
    var start := |v|;
    for i := 0 to |v|
      invariant start == if LastAtOrBelow(v, low, i) < 0 then |v| else LastAtOrBelow(v, low, i)
      invariant FirstEnd(v, low, high, 0) == FirstEnd(v, low, high, i)
    {
      if v[i] <= low {
        start := i;
      } else if start != |v| && v[i] >= high {
        assert Ends(v, low, high, i) && FirstEnd(v, low, high, 0) == i;
        var lowAt := LastOfRun(v, low, start);
        var highAt := lowAt + 1;
        while highAt < |v| && v[highAt] < high
          invariant lowAt < highAt <= i
        {
          highAt := highAt + 1;
        }
        if highAt < i {
          TraverseStaysBetween(v, low, high, highAt);
        }
        if highAt >= |v| {
          break;
        }
        var tLow := Seconds(lowAt as real + FractionAt(v[lowAt], v[lowAt + 1], low), interval);
        var tHigh := Seconds((highAt - 1) as real + FractionAt(v[highAt - 1], v[highAt], high), interval);
        return Ok(tHigh - tLow);
      }
    }
    return Unmeasurable(NoCompleteEdge);
  }

  // ---------------------------------------------------------------- falling edges

  function Negated(v: seq<real>): (n: seq<real>)
    ensures |n| == |v| && forall i :: 0 <= i < |v| ==> n[i] == -v[i]
  {
    seq(|v|, i requires 0 <= i < |v| => -v[i])
  }

  function LastAtOrAbove(v: seq<real>, high: real, n: nat): (p: int)
    requires n <= |v|
    ensures -1 <= p < n
    ensures p >= 0 ==> v[p] >= high
    ensures forall q :: p < q < n ==> v[q] < high
  {
    if n == 0 then -1
    else if v[n - 1] >= high then n - 1
    else LastAtOrAbove(v, high, n - 1)
  }

  predicate Falls(v: seq<real>, low: real, high: real, i: nat)
    requires i < |v|
  {
    v[i] < high && v[i] <= low && LastAtOrAbove(v, high, i) >= 0
  }

  function FirstFall(v: seq<real>, low: real, high: real, i: nat): (e: nat)
    requires i <= |v|
    ensures i <= e <= |v|
    ensures e < |v| ==> Falls(v, low, high, e)
    ensures forall j :: i <= j < e ==> !Falls(v, low, high, j)
    decreases |v| - i
  {
    if i == |v| || Falls(v, low, high, i) then i else FirstFall(v, low, high, i + 1)
  }

  /** The falling edge timed directly: from the last sample at or above `high` to the first at or below `low`. */
  function FallTimeOf(v: seq<real>, interval: real, low: real, high: real): Result<real> {
    var e := FirstFall(v, low, high, 0);
    if e == |v| then Unmeasurable(NoCompleteEdge)
    else
      var s := LastAtOrAbove(v, high, e);
      Ok(Seconds(CrossedAt(v, low, e - 1), interval) - Seconds(CrossedAt(v, high, s), interval))
  }

  lemma NegatedFraction(before: real, after: real, level: real)
    ensures FractionAt(-before, -after, -level) == FractionAt(before, after, level)
  {
    var span := after - before;
    if span != 0.0 {
      var f, g := (level - before) / span, (before - level) / (before - after);
      assert f * span == level - before && g * (before - after) == before - level;
      assert (f - g) * span == 0.0;
    }
  }

  lemma {:induction false} NegatedLast(v: seq<real>, high: real, n: nat)
    requires n <= |v|
    ensures LastAtOrBelow(Negated(v), -high, n) == LastAtOrAbove(v, high, n)
  {
    if n > 0 {
      NegatedLast(v, high, n - 1);
    }
  }

  /** One edge finder serves both directions: on the negated record it is the falling-edge finder. */
  lemma NegatedEdgeIsFallingEdge(v: seq<real>, interval: real, low: real, high: real)
    ensures EdgeTimeOf(Negated(v), interval, -high, -low) == FallTimeOf(v, interval, low, high)
  {
    hide FractionAt, Seconds;
    var n := Negated(v);
    forall i | 0 <= i < |v| ensures Ends(n, -high, -low, i) <==> Falls(v, low, high, i) {
      NegatedLast(v, high, i);
    }
    var e := FirstFall(v, low, high, 0);
    var e' := FirstEnd(n, -high, -low, 0);
    assert e' < |v| ==> Falls(v, low, high, e');
    assert e < |v| ==> Ends(n, -high, -low, e);
    assert e' == e;
    if e < |v| {
      NegatedLast(v, high, e);
      var s := LastAtOrAbove(v, high, e);
      NegatedFraction(v[s], v[s + 1], high);
      NegatedFraction(v[e - 1], v[e], low);
    }
  }

  /** The record gets from at or above `high` at `s`, by samples strictly between, to at or below `low` at `e`. */
  predicate Descends(v: seq<real>, low: real, high: real, s: nat, e: nat) {
    && s < e < |v| && high <= v[s] && v[e] <= low
    && forall q :: s < q < e ==> low < v[q] < high
  }

  predicate FirstDescent(v: seq<real>, low: real, high: real, e: nat) {
    forall p, i :: 0 <= p < i < e && i < |v| && high <= v[p] ==> low < v[i]
  }

  predicate FallSpans(v: seq<real>, low: real, high: real, s: nat, e: nat, p: real, q: real) {
    Descends(v, low, high, s, e) && FirstDescent(v, low, high, e) && OnTheLine(v, s + 1, p, high) && OnTheLine(v, e, q, low)
  }

  /** What is timed of a falling edge: the first complete fall, between the same two levels. */
  lemma FallEndsOnTheLine(v: seq<real>, interval: real, low: real, high: real)
    requires low < high && FallTimeOf(v, interval, low, high).Ok?
    ensures exists s: nat, e: nat, p: real, q: real ::
              FallSpans(v, low, high, s, e, p, q)
              && FallTimeOf(v, interval, low, high).value == q * interval - p * interval
  {
    hide OnTheLine, EdgeTimeOf, FallTimeOf, Rises, Descends, FirstRise, FirstDescent;
    NegatedEdgeIsFallingEdge(v, interval, low, high);
    var n := Negated(v);
    EdgeEndsOnTheLine(n, interval, -high, -low);
    var s: nat, e: nat, p: real, q: real :|
      RiseSpans(n, -high, -low, s, e, p, q) && EdgeTimeOf(n, interval, -high, -low).value == q * interval - p * interval;
    NegatedLine(v, s + 1, p, high);
    NegatedLine(v, e, q, low);
    NegatedRise(v, low, high, s, e);
    assert FallSpans(v, low, high, s, e, p, q);
  }

  lemma NegatedRise(v: seq<real>, low: real, high: real, s: nat, e: nat)
    ensures Rises(Negated(v), -high, -low, s, e) ==> Descends(v, low, high, s, e)
    ensures FirstRise(Negated(v), -high, -low, e) ==> FirstDescent(v, low, high, e)
  {
    var n := Negated(v);
    assert forall i :: 0 <= i < |v| ==> n[i] == -v[i];
  }

  lemma NegatedLine(v: seq<real>, k: nat, p: real, level: real)
    requires OnTheLine(Negated(v), k, p, -level)
    ensures OnTheLine(v, k, p, level)
  {
    var n, x := Negated(v), p - (k - 1) as real;
    assert x * (n[k] - n[k - 1]) == -(x * (v[k] - v[k - 1]));
  }
}
