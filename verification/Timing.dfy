/**
  The timing readings built on levels, crossings and the edge timer (measurements.cpp, `period`,
  `frequency`, `riseTime`, `fallTime` and `pulseWidth`). `interval` is the time between samples.
*/
module Timing {
  import opened Histogram
  import opened Crossings
  import opened EdgeTime

  // ---------------------------------------------------------------- specification

  /** The crossings of the middle level that period and widths are read from. */
  function MiddleCrossings(v: seq<real>, interval: real, l: Levels): seq<Crossing> {
    CrossingsOf(v, interval, l.Middle(), l.Band())
  }

  /** The times of the crossings in one direction, in order. */
  function TimesOf(found: seq<Crossing>, rising: bool): (times: seq<real>)
    ensures |times| <= |found|
  {
    if found == [] then []
    else
      var last := found[|found| - 1];
      TimesOf(found[..|found| - 1], rising) + (if last.rising == rising then [last.time] else [])
  }

  function MeanGap(edges: seq<real>): Result<real> {
    if |edges| < 2 then Unmeasurable(TooFewEdges)
    else Ok(Mean(edges[|edges| - 1] - edges[0], |edges| - 1))
  }

  function PeriodOfCrossings(found: seq<Crossing>): Result<real> {
    var rising, falling := TimesOf(found, true), TimesOf(found, false);
    MeanGap(if |rising| >= |falling| then rising else falling)
  }

  function PeriodOf(v: seq<real>, interval: real): Result<real> {
    match LevelsOf(v)
    case Unmeasurable(reason) => Unmeasurable(reason)
    case Ok(l) => PeriodOfCrossings(MiddleCrossings(v, interval, l))
  }

  /** The first crossing from `i` on in the wanted direction that another one follows. */
  function WidthFrom(found: seq<Crossing>, positive: bool, i: nat): Result<real>
    decreases |found| - i
  {
    if i + 1 >= |found| then Unmeasurable(if positive then NoHighPulse else NoLowPulse)
    else if found[i].rising == positive then Ok(found[i + 1].time - found[i].time)
    else WidthFrom(found, positive, i + 1)
  }

  function WidthOf(v: seq<real>, interval: real, positive: bool): Result<real> {
    match LevelsOf(v)
    case Unmeasurable(reason) => Unmeasurable(reason)
    case Ok(l) => WidthFrom(MiddleCrossings(v, interval, l), positive, 0)
  }

  function RiseTimeOf(v: seq<real>, interval: real, low: real, high: real): Result<real> {
    match LevelsOf(v)
    case Unmeasurable(reason) => Unmeasurable(reason)
    case Ok(l) => EdgeTimeOf(v, interval, l.At(low), l.At(high))
  }

  function FallOf(v: seq<real>, interval: real, low: real, high: real): Result<real> {
    match LevelsOf(v)
    case Unmeasurable(reason) => Unmeasurable(reason)
    case Ok(l) => FallTimeOf(v, interval, l.At(low), l.At(high))
  }

  // ---------------------------------------------------------------- crossings of a record

  /** The levels of a measurable record give the detector a proper band, so its crossings alternate in time. */
  lemma MiddleCrossingsAlternate(v: seq<real>, interval: real, l: Levels)
    requires interval > 0.0 && LevelsOf(v) == Ok(l)
    ensures AlternatesInTime(MiddleCrossings(v, interval, l))
  {
    hide CrossingsOf, LevelsOf;
    LevelsStraddleTheMiddle(v);
    CrossingsAlternateInTime(v, interval, l.Middle(), l.Band());
  }

  /**
    Period and widths are read halfway between base and top: every swing of the record from at or
    below 40 % of its amplitude to at or above 60 %, or back, is crossed between its two samples.
  */
  lemma SwingIsCrossed(v: seq<real>, interval: real, l: Levels, p: nat, i: nat, rising: bool)
    requires interval > 0.0 && LevelsOf(v) == Ok(l) && p < i < |v|
    requires
      var lower, upper := l.base + 0.4 * (l.top - l.base), l.base + 0.6 * (l.top - l.base);
      if rising then v[p] <= lower && upper <= v[i] else upper <= v[p] && v[i] <= lower
    ensures exists c :: c in MiddleCrossings(v, interval, l) && c.rising == rising
                        && p as real * interval <= c.time < i as real * interval
  {
    hide CrossingsOf, LevelsOf;
    LevelsStraddleTheMiddle(v);
    assert Traverses(v, l.Middle(), l.Band(), p, i, rising);
    TraverseIsCrossed(v, interval, l.Middle(), l.Band(), p, i, rising);
  }

  /** And each crossing is where the line between two samples passes halfway between base and top. */
  lemma MiddleIsCrossed(v: seq<real>, interval: real, l: Levels, middle: real, j: nat)
    requires interval > 0.0 && LevelsOf(v) == Ok(l) && j < |MiddleCrossings(v, interval, l)|
    requires middle == (l.base + l.top) / 2.0
    ensures exists k: nat, p: real ::
              OnTheLine(v, k, p, middle) && MiddleCrossings(v, interval, l)[j].time == p * interval
  {
    hide LevelsOf, OnTheLine, CrossingsOf;
    LevelsStraddleTheMiddle(v);
    assert l.Middle() == middle;
    CrossingIsAt(v, interval, middle, l.Band(), j);
  }

  lemma CrossingIsAt(v: seq<real>, interval: real, level: real, band: real, j: nat)
    requires band > 0.0 && j < |CrossingsOf(v, interval, level, band)|
    ensures exists k: nat, p: real ::
              OnTheLine(v, k, p, level) && CrossingsOf(v, interval, level, band)[j].time == p * interval
  {
    CrossingsLieInStraddlingPairs(v, interval, level, band, j);
    hide OnTheLine, CrossingsOf, EdgesOf;
    var k := EdgesOf(v, level, band, |v|)[j].k;
    var p: real :| OnTheLine(v, k, p, level) && CrossingsOf(v, interval, level, band)[j].time == p * interval;
  }

  // ---------------------------------------------------------------- period

  function Offset(found: seq<Crossing>, rising: bool): (s: nat)
    ensures s <= 1
  {
    if found != [] && found[0].rising == rising then 0 else 1
  }

  /** Alternating crossings: one direction holds every second one. */
  lemma {:induction false} TimesOfAlternating(found: seq<Crossing>, rising: bool)
    requires Alternates(found) && found != []
    ensures
      var s, times := Offset(found, rising), TimesOf(found, rising);
      && |found| <= 2 * |times| + s <= |found| + 1
      && forall j :: 0 <= j < |times| ==> 2 * j + s < |found| && times[j] == found[2 * j + s].time
    decreases |found|
  {
    var n := |found| - 1;
    if n > 0 {
      var s, before, times := Offset(found, rising), TimesOf(found[..n], rising), TimesOf(found, rising);
      TimesOfAlternating(found[..n], rising);
      assert Offset(found[..n], rising) == s;
      DirectionByParity(found, n);
      assert found[n].rising == rising <==> n % 2 == s;
      assert found[n].rising == rising ==> 2 * |before| + s == n;
      forall j | 0 <= j < |times|
        ensures 2 * j + s < |found| && times[j] == found[2 * j + s].time
      {
        if j < |before| {
          assert found[..n][2 * j + s] == found[2 * j + s];
        }
      }
    }
  }

  lemma {:induction false} DirectionByParity(found: seq<Crossing>, j: nat)
    requires Alternates(found) && j < |found|
    ensures found[j].rising == if j % 2 == 0 then found[0].rising else !found[0].rising
  {
    if j > 0 {
      DirectionByParity(found, j - 1);
    }
  }

  /** The first crossing the period is read from: an even count prefers the rising edges. */
  function FirstEdge(found: seq<Crossing>): nat
    requires found != []
  {
    if |found| % 2 == 0 && !found[0].rising then 1 else 0
  }

  /**
    A period is read exactly when there are three crossings or more. It is the spacing of the
    majority direction's edges: from the first of them to the last, over the gaps between.
  */
  lemma PeriodIsEdgeSpacing(found: seq<Crossing>)
    requires AlternatesInTime(found)
    ensures PeriodOfCrossings(found).Ok? <==> |found| >= 3
    ensures |found| >= 3 ==>
      var s, gaps := FirstEdge(found), (|found| - 1) / 2;
      && gaps > 0 && s + 2 * gaps < |found|
      && PeriodOfCrossings(found) == Ok(Mean(found[s + 2 * gaps].time - found[s].time, gaps))
  {
    hide Mean, TimesIncrease, TimesOf;
    if found == [] {
      assert TimesOf(found, true) == [] && TimesOf(found, false) == [] by { NoTimes(found); }
    } else {
      TimesOfAlternating(found, true);
      TimesOfAlternating(found, false);
      assert Offset(found, true) + Offset(found, false) == 1;
    }
  }

  lemma NoTimes(found: seq<Crossing>)
    requires found == []
    ensures TimesOf(found, true) == [] && TimesOf(found, false) == []
  {}

  lemma MeanIsPositive(sum: real, n: nat)
    requires n > 0 && sum > 0.0
    ensures Mean(sum, n) > 0.0
  {
    QuotientOrder(sum, n as real, 0.0);
  }

  lemma MeanOfOne(sum: real)
    ensures Mean(sum, 1) == sum
  {}

  lemma PeriodIsPositive(v: seq<real>, interval: real)
    requires interval > 0.0 && PeriodOf(v, interval).Ok?
    ensures PeriodOf(v, interval).value > 0.0
  {
    hide Mean, CrossingsOf, LevelsOf, PeriodOfCrossings;
    var found := MiddleCrossings(v, interval, LevelsOf(v).value);
    MiddleCrossingsAlternate(v, interval, LevelsOf(v).value);
    PeriodIsEdgeSpacing(found);
    var s, gaps := FirstEdge(found), (|found| - 1) / 2;
    MeanIsPositive(found[s + 2 * gaps].time - found[s].time, gaps);
  }

  /** `1 / period` is always defined where there is a period. */
  function FrequencyOf(v: seq<real>, interval: real): Result<real>
    requires interval > 0.0
  {
    match PeriodOf(v, interval)
    case Unmeasurable(reason) => Unmeasurable(reason)
    case Ok(seconds) => PeriodIsPositive(v, interval); Ok(1.0 / seconds)
  }

  /** A frequency times its period is one. */
  lemma FrequencyIsOfPeriod(v: seq<real>, interval: real)
    requires interval > 0.0
    ensures FrequencyOf(v, interval).Ok? <==> PeriodOf(v, interval).Ok?
    ensures PeriodOf(v, interval).Ok? ==> FrequencyOf(v, interval).value * PeriodOf(v, interval).value == 1.0
  {
    hide PeriodOf;
    if PeriodOf(v, interval).Ok? {
      PeriodIsPositive(v, interval);
      var seconds := PeriodOf(v, interval).value;
      assert 1.0 / seconds * seconds == 1.0;
    }
  }

  function Gaps(edges: seq<real>): (gaps: seq<real>)
    requires edges != []
    ensures |gaps| == |edges| - 1
  {
    seq(|edges| - 1, i requires 0 <= i < |edges| - 1 => edges[i + 1] - edges[i])
  }

  lemma {:induction false} GapsTelescope(edges: seq<real>)
    requires edges != []
    ensures SumOf(Gaps(edges)) == edges[|edges| - 1] - edges[0]
    decreases |edges|
  {
    var n := |edges| - 1;
    if n > 0 {
      GapsTelescope(edges[..n]);
      assert Gaps(edges)[..n - 1] == Gaps(edges[..n]);
    }
  }

  /** What is averaged is the mean of the gaps between consecutive edges of one direction. */
  lemma PeriodIsMeanOfGaps(edges: seq<real>)
    requires |edges| >= 2
    ensures MeanGap(edges) == Ok(Mean(SumOf(Gaps(edges)), |Gaps(edges)|))
  {
    GapsTelescope(edges);
  }

  // ---------------------------------------------------------------- widths

  /** A width is read when the wanted pulse is complete; it is the first one, and positive. */
  lemma WidthIsFirstPulse(found: seq<Crossing>, positive: bool)
    requires AlternatesInTime(found)
    ensures
      var i, r := Offset(found, positive), WidthFrom(found, positive, 0);
      && (r.Ok? <==> i + 1 < |found|)
      && (r.Ok? ==> r.value == found[i + 1].time - found[i].time > 0.0)
  {}

  /**
    The high and the low pulse together span the first three crossings, and with exactly three
    they are one period.
  */
  lemma WidthsSpanThreeCrossings(v: seq<real>, interval: real)
    requires interval > 0.0 && LevelsOf(v).Ok?
    ensures
      var found := MiddleCrossings(v, interval, LevelsOf(v).value);
      var high, low := WidthOf(v, interval, true), WidthOf(v, interval, false);
      && (high.Ok? && low.Ok? <==> |found| >= 3)
      && (PeriodOf(v, interval).Ok? <==> |found| >= 3)
      && (|found| >= 3 ==> high.value > 0.0 && low.value > 0.0
                           && high.value + low.value == found[2].time - found[0].time)
      && (|found| == 3 ==> PeriodOf(v, interval) == Ok(high.value + low.value))
  {
    hide CrossingsOf, LevelsOf, Mean, PeriodOfCrossings, WidthFrom;
    var found := MiddleCrossings(v, interval, LevelsOf(v).value);
    MiddleCrossingsAlternate(v, interval, LevelsOf(v).value);
    PeriodIsEdgeSpacing(found);
    WidthIsFirstPulse(found, true);
    WidthIsFirstPulse(found, false);
    if |found| == 3 {
      MeanOfOne(found[2].time - found[0].time);
    }
  }

  // ---------------------------------------------------------------- edge times

  lemma FractionsKeepOrder(l: Levels, low: real, high: real)
    requires l.Amplitude() > 0.0 && low < high
    ensures l.At(low) < l.At(high)
  {
    assert (high - low) * l.Amplitude() > 0.0;
  }

  /** `level` is `fraction` of the way from base to top. */
  predicate IsAt(l: Levels, fraction: real, level: real) {
    level == l.base + fraction * (l.top - l.base)
  }

  lemma AtIs(l: Levels, fraction: real, level: real)
    requires IsAt(l, fraction, level)
    ensures l.At(fraction) == level
  {}

  /** A rise time is that of the first complete rise between the fractions `low` and `high` of the way from base to top. */
  lemma RiseIsBetweenFractions(v: seq<real>, interval: real, l: Levels, low: real, high: real, lower: real, upper: real)
    requires LevelsOf(v) == Ok(l) && low < high && RiseTimeOf(v, interval, low, high).Ok?
    requires IsAt(l, low, lower) && IsAt(l, high, upper)
    ensures exists s: nat, e: nat, p: real, q: real ::
              RiseSpans(v, lower, upper, s, e, p, q) && RiseTimeOf(v, interval, low, high).value == q * interval - p * interval
  {
    hide RiseTimeOf, EdgeTimeOf, LevelsOf, RiseSpans, IsAt;
    RiseIsEdge(v, interval, l, low, high, lower, upper);
    EdgeEndsOnTheLine(v, interval, lower, upper);
  }

  lemma RiseIsEdge(v: seq<real>, interval: real, l: Levels, low: real, high: real, lower: real, upper: real)
    requires LevelsOf(v) == Ok(l) && low < high && IsAt(l, low, lower) && IsAt(l, high, upper)
    ensures lower < upper && RiseTimeOf(v, interval, low, high) == EdgeTimeOf(v, interval, lower, upper)
  {
    hide EdgeTimeOf, LevelsOf, Levels.At, IsAt;
    LevelsStraddleTheMiddle(v);
    FractionsKeepOrder(l, low, high);
    AtIs(l, low, lower);
    AtIs(l, high, upper);
  }

  lemma FallIsBetweenFractions(v: seq<real>, interval: real, l: Levels, low: real, high: real, lower: real, upper: real)
    requires LevelsOf(v) == Ok(l) && low < high && FallOf(v, interval, low, high).Ok?
    requires IsAt(l, low, lower) && IsAt(l, high, upper)
    ensures exists s: nat, e: nat, p: real, q: real ::
              FallSpans(v, lower, upper, s, e, p, q) && FallOf(v, interval, low, high).value == q * interval - p * interval
  {
    hide FallOf, FallTimeOf, LevelsOf, FallSpans, IsAt;
    FallIsEdge(v, interval, l, low, high, lower, upper);
    FallEndsOnTheLine(v, interval, lower, upper);
  }

  lemma FallIsEdge(v: seq<real>, interval: real, l: Levels, low: real, high: real, lower: real, upper: real)
    requires LevelsOf(v) == Ok(l) && low < high && IsAt(l, low, lower) && IsAt(l, high, upper)
    ensures lower < upper && FallOf(v, interval, low, high) == FallTimeOf(v, interval, lower, upper)
  {
    hide FallTimeOf, LevelsOf, Levels.At, IsAt;
    LevelsStraddleTheMiddle(v);
    FractionsKeepOrder(l, low, high);
    AtIs(l, low, lower);
    AtIs(l, high, upper);
  }

  /** Rise and fall times, where there are any, are positive. */
  lemma EdgeTimesArePositive(v: seq<real>, interval: real, low: real, high: real)
    requires interval > 0.0 && low < high
    ensures RiseTimeOf(v, interval, low, high).Ok? ==> RiseTimeOf(v, interval, low, high).value > 0.0
    ensures FallOf(v, interval, low, high).Ok? ==> FallOf(v, interval, low, high).value > 0.0
  {
    hide EdgeTimeOf, FallTimeOf, Levels.At, LevelsOf;
    LevelsStraddleTheMiddle(v);
    if LevelsOf(v).Ok? {
      var l := LevelsOf(v).value;
      FractionsKeepOrder(l, low, high);
      if EdgeTimeOf(v, interval, l.At(low), l.At(high)).Ok? {
        EdgeTimeIsPositive(v, interval, l.At(low), l.At(high));
      }
      NegatedEdgeIsFallingEdge(v, interval, l.At(low), l.At(high));
      if FallTimeOf(v, interval, l.At(low), l.At(high)).Ok? {
        EdgeTimeIsPositive(Negated(v), interval, -l.At(high), -l.At(low));
      }
    }
  }

  // ---------------------------------------------------------------- the algorithms

  method Period(v: seq<real>, interval: real) returns (r: Result<real>)
    ensures r == PeriodOf(v, interval)
  {
    hide CrossingsOf, LevelsOf, Mean;
    var levels := FindLevels(v);
    if levels.Unmeasurable? {
      return Unmeasurable(levels.reason);
    }
    var l := levels.value;
    var found := FindCrossings(v, interval, l.Middle(), l.Band());
    var rising, falling := [], [];
    for i := 0 to |found|
      invariant rising == TimesOf(found[..i], true) && falling == TimesOf(found[..i], false)
    {
      assert found[..i + 1][..i] == found[..i];
      if found[i].rising {
        rising := rising + [found[i].time];
      } else {
        falling := falling + [found[i].time];
      }
    }
    assert found[..|found|] == found;
    var edges := if |rising| >= |falling| then rising else falling;
    if |edges| < 2 {
      return Unmeasurable(TooFewEdges);
    }
    return Ok(Mean(edges[|edges| - 1] - edges[0], |edges| - 1));
  }

  method Frequency(v: seq<real>, interval: real) returns (r: Result<real>)
    requires interval > 0.0
    ensures r == FrequencyOf(v, interval)
  {
    var seconds := Period(v, interval);
    if seconds.Unmeasurable? {
      return Unmeasurable(seconds.reason);
    }
    PeriodIsPositive(v, interval);
    return Ok(1.0 / seconds.value);
  }

  method RiseTime(v: seq<real>, interval: real, low: real, high: real) returns (r: Result<real>)
    ensures r == RiseTimeOf(v, interval, low, high)
  {
    hide EdgeTimeOf, LevelsOf, Levels.At;
    var levels := FindLevels(v);
    if levels.Unmeasurable? {
      return Unmeasurable(levels.reason);
    }
    r := FindEdgeTime(v, interval, levels.value.At(low), levels.value.At(high));
  }

  method FallTime(v: seq<real>, interval: real, low: real, high: real) returns (r: Result<real>)
    ensures r == FallOf(v, interval, low, high)
  {
    hide EdgeTimeOf, FallTimeOf, LevelsOf, Levels.At;
    var levels := FindLevels(v);
    if levels.Unmeasurable? {
      return Unmeasurable(levels.reason);
    }
    var l := levels.value;
    var negated := [];
    for i := 0 to |v|
      invariant |negated| == i && forall j :: 0 <= j < i ==> negated[j] == -v[j]
    {
      negated := negated + [-v[i]];
    }
    assert negated == Negated(v);
    NegatedEdgeIsFallingEdge(v, interval, l.At(low), l.At(high));
    r := FindEdgeTime(negated, interval, -l.At(high), -l.At(low));
  }

  method PulseWidth(v: seq<real>, interval: real, positive: bool) returns (r: Result<real>)
    ensures r == WidthOf(v, interval, positive)
  {
    hide CrossingsOf, LevelsOf;
    var levels := FindLevels(v);
    if levels.Unmeasurable? {
      return Unmeasurable(levels.reason);
    }
    var l := levels.value;
    var found := FindCrossings(v, interval, l.Middle(), l.Band());
    var i := 0;
    while i + 1 < |found|
      invariant WidthFrom(found, positive, 0) == WidthFrom(found, positive, i)
    {
      if found[i].rising == positive {
        return Ok(found[i + 1].time - found[i].time);
      }
      i := i + 1;
    }
    return Unmeasurable(if positive then NoHighPulse else NoLowPulse);
  }
}
