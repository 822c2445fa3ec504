/**
  The hysteresis crossing detector (measurements.cpp, `fractionAt` and `crossings`): a crossing
  is counted when the signal gets past the far side of the band, and placed where it crossed
  the level itself.
*/
module Crossings {

  datatype Crossing = Crossing(time: real, rising: bool)

  datatype Side = Undecided | Low | High

  /** Where a straight line between two samples passes through `level`, in sample units. */
  function FractionAt(before: real, after: real, level: real): real {
    var span := after - before;
    if span == 0.0 then 0.0 else (level - before) / span
  }

  /** A position in sample units as a time. */
  function Seconds(position: real, interval: real): real {
    position * interval
  }

  function SideOf(x: real, level: real, band: real): Side {
    if x >= level + band then High
    else if x <= level - band then Low
    else Undecided
  }

  // ---------------------------------------------------------------- specification

  /** The last sample before `n` that is outside the band, or -1. */
  function LastDecided(v: seq<real>, level: real, band: real, n: nat): (p: int)
    requires n <= |v|
    ensures -1 <= p < n
    ensures p >= 0 ==> SideOf(v[p], level, band) != Undecided
    ensures forall q :: p < q < n ==> SideOf(v[q], level, band) == Undecided
  {
    if n == 0 then -1
    else if SideOf(v[n - 1], level, band) != Undecided then n - 1
    else LastDecided(v, level, band, n - 1)
  }

  /** Sample `i` completes a traverse of the band: the last decided sample before it is opposite. */
  predicate Completes(v: seq<real>, level: real, band: real, i: nat)
    requires i < |v|
  {
    var p := LastDecided(v, level, band, i);
    var now := SideOf(v[i], level, band);
    now != Undecided && p >= 0 && SideOf(v[p], level, band) != now
  }

  predicate Past(x: real, level: real, rising: bool) {
    if rising then x > level else x < level
  }

  /** Walking back from `i`, the first index whose predecessor is not past the level. */
  function Straddle(v: seq<real>, level: real, rising: bool, i: nat): (k: nat)
    requires i < |v|
    ensures k <= i
    ensures forall q :: k <= q < i ==> Past(v[q], level, rising)
    ensures k > 0 ==> !Past(v[k - 1], level, rising)
  {
    if i > 0 && Past(v[i - 1], level, rising) then Straddle(v, level, rising, i - 1) else i
  }

  /** A traverse of the level, by the second sample of the pair it lies in. */
  datatype Edge = Edge(k: nat, rising: bool)

  function EdgeAt(v: seq<real>, level: real, band: real, i: nat): (e: Edge)
    requires i < |v|
    ensures e.k <= i
  {
    var rising := SideOf(v[i], level, band) == High;
    Edge(Straddle(v, level, rising, i), rising)
  }

  /** The traverses completed within the first `n` samples. */
  function EdgesOf(v: seq<real>, level: real, band: real, n: nat): (edges: seq<Edge>)
    requires n <= |v|
    ensures edges != [] ==> n > 1
    ensures forall j :: 0 <= j < |edges| ==> edges[j].k < n
  {
    if n == 0 then []
    else if Completes(v, level, band, n - 1)
      then EdgesOf(v, level, band, n - 1) + [EdgeAt(v, level, band, n - 1)]
    else EdgesOf(v, level, band, n - 1)
  }

  function PositionOf(v: seq<real>, level: real, k: nat): real
    requires k < |v| && |v| > 1
  {
    var from := if k > 0 then k - 1 else 0;
    from as real + FractionAt(v[from], v[from + 1], level)
  }

  function TimeOf(v: seq<real>, interval: real, level: real, k: nat): real
    requires k < |v| && |v| > 1
  {
    Seconds(PositionOf(v, level, k), interval)
  }

  function Placed(v: seq<real>, interval: real, level: real, edges: seq<Edge>): (found: seq<Crossing>)
    requires edges != [] ==> |v| > 1
    requires forall j :: 0 <= j < |edges| ==> edges[j].k < |v|
    ensures |found| == |edges|
    ensures forall j :: 0 <= j < |edges| ==>
              found[j].rising == edges[j].rising && found[j].time == TimeOf(v, interval, level, edges[j].k)
  {
    seq(|edges|, j requires 0 <= j < |edges| =>
      Crossing(TimeOf(v, interval, level, edges[j].k), edges[j].rising))
  }

  function CrossingsOf(v: seq<real>, interval: real, level: real, band: real): seq<Crossing> {
    Placed(v, interval, level, EdgesOf(v, level, band, |v|))
  }

  // ---------------------------------------------------------------- properties

  /** The pair (k-1, k) lies in the record and straddles the level in the edge's direction. */
  predicate Straddles(v: seq<real>, level: real, e: Edge) {
    && 1 <= e.k < |v|
    && (if e.rising then v[e.k - 1] <= level < v[e.k] else v[e.k - 1] >= level > v[e.k])
  }

  /** The walk back stops inside the record, after the opposite sample it came from. */
  lemma WalkBackStops(v: seq<real>, level: real, band: real, i: nat)
    requires band > 0.0 && i < |v| && Completes(v, level, band, i)
    ensures LastDecided(v, level, band, i) < EdgeAt(v, level, band, i).k <= i
    ensures Straddles(v, level, EdgeAt(v, level, band, i))
  {
    var rising := SideOf(v[i], level, band) == High;
    var p := LastDecided(v, level, band, i);
    assert !Past(v[p], level, rising) && Past(v[i], level, rising);
  }

  ghost predicate WellFormed(v: seq<real>, level: real, edges: seq<Edge>) {
    && (forall j :: 0 <= j < |edges| ==> Straddles(v, level, edges[j]))
    && (forall i, j :: 0 <= i < j < |edges| ==> edges[i].k < edges[j].k)
    && (forall j :: 0 < j < |edges| ==> edges[j - 1].rising != edges[j].rising)
  }

  lemma WellFormedSnoc(v: seq<real>, level: real, edges: seq<Edge>, e: Edge)
    requires WellFormed(v, level, edges) && Straddles(v, level, e)
    requires edges != [] ==> edges[|edges| - 1].k < e.k && edges[|edges| - 1].rising != e.rising
    ensures WellFormed(v, level, edges + [e])
  {}

  lemma {:induction false} EdgesAreWellFormed(v: seq<real>, level: real, band: real, n: nat)
    requires band > 0.0 && n <= |v|
    ensures
      var edges := EdgesOf(v, level, band, n);
      var p := LastDecided(v, level, band, n);
      && WellFormed(v, level, edges)
      && (edges != [] ==> p >= 0 && edges[|edges| - 1].k <= p
                          && edges[|edges| - 1].rising == (SideOf(v[p], level, band) == High))
  {
    hide Straddle, Straddles;
    if n > 0 {
      EdgesAreWellFormed(v, level, band, n - 1);
      if Completes(v, level, band, n - 1) {
        WalkBackStops(v, level, band, n - 1);
        WellFormedSnoc(v, level, EdgesOf(v, level, band, n - 1), EdgeAt(v, level, band, n - 1));
      }
    }
  }

  lemma FractionWithin(before: real, after: real, level: real)
    requires before <= level < after || before >= level > after
    ensures 0.0 <= FractionAt(before, after, level) < 1.0
  {
    var span := after - before;
    var f := (level - before) / span;
    assert f * span == level - before;
    if span > 0.0 {
      assert f >= 1.0 ==> f * span >= span;
      assert f < 0.0 ==> f * span < 0.0;
    } else {
      assert f >= 1.0 ==> f * span <= span;
      assert f < 0.0 ==> f * span > 0.0;
    }
  }

  lemma SecondsOrder(x: real, y: real, interval: real)
    requires interval > 0.0
    ensures x < y <==> Seconds(x, interval) < Seconds(y, interval)
  {
    if x < y {
      assert (y - x) * interval > 0.0;
    } else {
      assert (x - y) * interval >= 0.0;
    }
  }

  /** A crossing is placed in its pair, before the pair's second sample. */
  lemma PositionWithinPair(v: seq<real>, level: real, e: Edge)
    requires Straddles(v, level, e)
    ensures (e.k - 1) as real <= PositionOf(v, level, e.k) < e.k as real
  {
    hide FractionAt;
    FractionWithin(v[e.k - 1], v[e.k], level);
  }

  lemma EarlierEdgeEarlierTime(v: seq<real>, interval: real, level: real, e: Edge, f: Edge)
    requires interval > 0.0 && Straddles(v, level, e) && Straddles(v, level, f) && e.k < f.k
    ensures TimeOf(v, interval, level, e.k) < TimeOf(v, interval, level, f.k)
  {
    hide Seconds, PositionOf;
    PositionWithinPair(v, level, e);
    PositionWithinPair(v, level, f);
    SecondsOrder(PositionOf(v, level, e.k), PositionOf(v, level, f.k), interval);
  }

  predicate Alternates(found: seq<Crossing>) {
    forall j :: 0 < j < |found| ==> found[j - 1].rising != found[j].rising
  }

  predicate TimesIncrease(found: seq<Crossing>) {
    forall i, j :: 0 <= i < j < |found| ==> found[i].time < found[j].time
  }

  predicate AlternatesInTime(found: seq<Crossing>) {
    Alternates(found) && TimesIncrease(found)
  }

  /** Crossings alternate in direction and come in strictly increasing time. */
  lemma CrossingsAlternateInTime(v: seq<real>, interval: real, level: real, band: real)
    requires band > 0.0 && interval > 0.0
    ensures AlternatesInTime(CrossingsOf(v, interval, level, band))
  {
    hide Seconds, FractionAt;
    EdgesAreWellFormed(v, level, band, |v|);
    var edges := EdgesOf(v, level, band, |v|);
    var found := CrossingsOf(v, interval, level, band);
    forall i, j | 0 <= i < j < |edges| ensures found[i].time < found[j].time {
      EarlierEdgeEarlierTime(v, interval, level, edges[i], edges[j]);
    }
  }

  /** At position `p`, in samples, the straight line from sample `k - 1` to sample `k` is at `level`. */
  predicate OnTheLine(v: seq<real>, k: nat, p: real, level: real) {
    && 0 < k < |v| && (k - 1) as real <= p <= k as real
    && v[k - 1] + (p - (k - 1) as real) * (v[k] - v[k - 1]) == level
  }

  lemma FractionOnTheLine(before: real, after: real, level: real)
    requires before != after
    ensures before + FractionAt(before, after, level) * (after - before) == level
  {
    var span := after - before;
    assert (level - before) / span * span == level - before;
  }

  /** An interpolated position is on the line through its two samples. */
  lemma PlacedOnTheLine(v: seq<real>, k: nat, level: real)
    requires 0 < k < |v| && v[k - 1] != v[k]
    requires v[k - 1] <= level <= v[k] || v[k - 1] >= level >= v[k]
    ensures OnTheLine(v, k, (k - 1) as real + FractionAt(v[k - 1], v[k], level), level)
  {
    var f := FractionAt(v[k - 1], v[k], level);
    FractionOnTheLine(v[k - 1], v[k], level);
    hide FractionAt;
    FractionFromLine(v[k - 1], v[k], level, f);
    assert (k - 1) as real + f - (k - 1) as real == f;
  }

  lemma FractionFromLine(before: real, after: real, level: real, f: real)
    requires before < after ==> before <= level <= after
    requires before > after ==> before >= level >= after
    requires before != after && before + f * (after - before) == level
    ensures 0.0 <= f <= 1.0
  {
    var span := after - before;
    assert f * span == level - before;
    assert (f - 1.0) * span == f * span - span;
    if span > 0.0 {
      assert f > 1.0 ==> (f - 1.0) * span > 0.0;
      assert f < 0.0 ==> f * span < 0.0;
    } else {
      assert f > 1.0 ==> (f - 1.0) * span < 0.0;
      assert f < 0.0 ==> f * span > 0.0;
    }
  }

  /** A traverse is timed where the line between its two samples passes through the level. */
  lemma EdgeOnTheLine(v: seq<real>, interval: real, level: real, e: Edge)
    requires Straddles(v, level, e)
    ensures exists p: real :: OnTheLine(v, e.k, p, level) && p < e.k as real && TimeOf(v, interval, level, e.k) == p * interval
  {
    PositionWithinPair(v, level, e);
    PlacedOnTheLine(v, e.k, level);
    hide FractionAt, OnTheLine;
    var p := PositionOf(v, level, e.k);
    assert OnTheLine(v, e.k, p, level);
    SecondsAre(p, interval);
  }

  lemma SecondsAre(p: real, interval: real)
    ensures Seconds(p, interval) == p * interval
  {}

  /**
    Each crossing is where the straight line between two samples of the record, which straddle the
    level in its direction, passes through it.
  */
  lemma CrossingsLieInStraddlingPairs(v: seq<real>, interval: real, level: real, band: real, j: nat)
    requires band > 0.0 && j < |CrossingsOf(v, interval, level, band)|
    ensures
      var c, k := CrossingsOf(v, interval, level, band)[j], EdgesOf(v, level, band, |v|)[j].k;
      && 0 < k < |v| && (if c.rising then v[k - 1] <= level < v[k] else v[k - 1] >= level > v[k])
      && (exists p: real :: OnTheLine(v, k, p, level) && p < k as real && c.time == p * interval)
  {
    hide TimeOf, OnTheLine;
    EdgesAreWellFormed(v, level, band, |v|);
    EdgeOnTheLine(v, interval, level, EdgesOf(v, level, band, |v|)[j]);
  }

  /** The signal gets from one side of the band, `level - band` or `level + band`, at `p` to the other at `i`. */
  predicate Traverses(v: seq<real>, level: real, band: real, p: nat, i: nat, rising: bool) {
    && p < i < |v|
    && if rising then v[p] <= level - band && level + band <= v[i] else level + band <= v[p] && v[i] <= level - band
  }

  /** Every traverse of the band has a crossing in its direction, timed between its two samples. */
  lemma TraverseIsCrossed(v: seq<real>, interval: real, level: real, band: real, p: nat, i: nat, rising: bool)
    requires band > 0.0 && interval > 0.0 && Traverses(v, level, band, p, i, rising)
    ensures exists c :: c in CrossingsOf(v, interval, level, band) && c.rising == rising
                        && p as real * interval <= c.time < i as real * interval
  {
    hide EdgesOf, TimeOf, Traverses, Straddles;
    TraverseHasEdge(v, level, band, p, i, rising);
    var edges, found := EdgesOf(v, level, band, |v|), CrossingsOf(v, interval, level, band);
    var j :| 0 <= j < |edges| && p < edges[j].k <= i && edges[j].rising == rising && Straddles(v, level, edges[j]);
    TimeWithin(v, interval, level, edges[j], p, i);
    assert found[j] in found;
  }

  lemma TraverseHasEdge(v: seq<real>, level: real, band: real, p: nat, i: nat, rising: bool)
    requires band > 0.0 && Traverses(v, level, band, p, i, rising)
    ensures
      var edges := EdgesOf(v, level, band, |v|);
      exists j :: 0 <= j < |edges| && p < edges[j].k <= i && edges[j].rising == rising && Straddles(v, level, edges[j])
  {
    EveryTraverseIsCounted(v, level, band, p, i, |v|);
    EdgesAreWellFormed(v, level, band, |v|);
    hide EdgesOf, Straddles;
    var edges := EdgesOf(v, level, band, |v|);
    var e :| e in edges && p < e.k <= i && e.rising == rising;
    var j :| 0 <= j < |edges| && edges[j] == e;
  }

  lemma TimeWithin(v: seq<real>, interval: real, level: real, e: Edge, p: nat, i: nat)
    requires interval > 0.0 && Straddles(v, level, e) && p < e.k <= i
    ensures p as real * interval <= TimeOf(v, interval, level, e.k) < i as real * interval
  {
    hide PositionOf, Seconds;
    PositionWithinPair(v, level, e);
    var at := PositionOf(v, level, e.k);
    SecondsOrder(at, i as real, interval);
    SecondsOrder(at, p as real, interval);
    SecondsAre(p as real, interval);
    SecondsAre(i as real, interval);
  }

  /** And nothing else is one: each crossing found is placed within a traverse of the band in its direction. */
  lemma {:induction false} CrossingIsTraverse(v: seq<real>, level: real, band: real, n: nat, j: nat)
    requires band > 0.0 && n <= |v| && j < |EdgesOf(v, level, band, n)|
    ensures
      var e := EdgesOf(v, level, band, n)[j];
      exists p: nat, i: nat :: Traverses(v, level, band, p, i, e.rising) && p < e.k <= i
  {
    hide Straddle, Straddles;
    if j < |EdgesOf(v, level, band, n - 1)| {
      CrossingIsTraverse(v, level, band, n - 1, j);
    } else {
      var i := n - 1;
      WalkBackStops(v, level, band, i);
      assert Traverses(v, level, band, LastDecided(v, level, band, i), i, EdgeAt(v, level, band, i).rising);
    }
  }

  /**
    Nothing is missed: whenever the signal is on one side of the band at `p` and on the other at
    a later `i`, a crossing in that direction is placed in a pair between them.
  */
  lemma {:induction false} EveryTraverseIsCounted(v: seq<real>, level: real, band: real, p: nat, i: nat, n: nat)
    requires band > 0.0 && p < i < n <= |v|
    requires SideOf(v[p], level, band) != Undecided && SideOf(v[i], level, band) != Undecided
    requires SideOf(v[p], level, band) != SideOf(v[i], level, band)
    ensures exists e :: e in EdgesOf(v, level, band, n) && p < e.k <= i
                        && e.rising == (SideOf(v[i], level, band) == High)
    decreases n
  {
    if i < n - 1 {
      EveryTraverseIsCounted(v, level, band, p, i, n - 1);
    } else if Completes(v, level, band, i) {
      WalkBackStops(v, level, band, i);
      assert EdgeAt(v, level, band, i) in EdgesOf(v, level, band, n);
    } else {
      EveryTraverseIsCounted(v, level, band, p, LastDecided(v, level, band, i), n - 1);
    }
  }

  lemma PlacedSnoc(v: seq<real>, interval: real, level: real, edges: seq<Edge>, e: Edge)
    requires forall j :: 0 <= j < |edges| ==> edges[j].k < |v|
    requires e.k < |v| && |v| > 1
    ensures Placed(v, interval, level, edges + [e]) ==
            Placed(v, interval, level, edges) + [Crossing(TimeOf(v, interval, level, e.k), e.rising)]
  {}

  // ---------------------------------------------------------------- the algorithm

  method WalkBack(v: seq<real>, level: real, now: Side, i: nat) returns (k: nat)
    requires i < |v|
    ensures k == Straddle(v, level, now == High, i)
  {
    k := i;
    while k > 0 && (if now == High then v[k - 1] > level else v[k - 1] < level)
      invariant k <= i
      invariant Straddle(v, level, now == High, i) == Straddle(v, level, now == High, k)
    {
      k := k - 1;
    }
  }

  /** What one more sample does to the detector's state and to the traverses it has seen. */
  lemma OneMoreSample(v: seq<real>, level: real, band: real, i: nat)
    requires i < |v|
    ensures
      var now, p := SideOf(v[i], level, band), LastDecided(v, level, band, i);
      && LastDecided(v, level, band, i + 1) == (if now == Undecided then p else i)
      && EdgesOf(v, level, band, i + 1) ==
         if now != Undecided && p >= 0 && SideOf(v[p], level, band) != now
           then EdgesOf(v, level, band, i) + [Edge(Straddle(v, level, now == High, i), now == High)]
         else EdgesOf(v, level, band, i)
  {}

  method FindCrossings(v: seq<real>, interval: real, level: real, band: real) returns (found: seq<Crossing>)
    ensures found == CrossingsOf(v, interval, level, band)
  {
    hide Seconds, FractionAt, Straddle, Placed, EdgesOf, LastDecided;
    NothingYet(v, interval, level, band);
    found := [];
    var state := Undecided;
    for i := 0 to |v|
      invariant found == Placed(v, interval, level, EdgesOf(v, level, band, i))
      invariant var p := LastDecided(v, level, band, i);
                state == if p < 0 then Undecided else SideOf(v[p], level, band)
    {
      OneMoreSample(v, level, band, i);
      var below := v[i] <= level - band;
      var above := v[i] >= level + band;
      if !below && !above {
        continue;
      }
      var now := if above then High else Low;
      if state != Undecided && now != state {
        var k := WalkBack(v, level, now, i);
        var from := if k > 0 then k - 1 else 0;
        var at := from as real + FractionAt(v[from], v[from + 1], level);
        found := found + [Crossing(Seconds(at, interval), now == High)];
        PlacedSnoc(v, interval, level, EdgesOf(v, level, band, i), Edge(k, now == High));
      }
      state := now;
    }
  }

  lemma NothingYet(v: seq<real>, interval: real, level: real, band: real)
    ensures LastDecided(v, level, band, 0) == -1 && EdgesOf(v, level, band, 0) == []
    ensures Placed(v, interval, level, EdgesOf(v, level, band, 0)) == []
  {}
}
