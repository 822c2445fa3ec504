/**
  No timing reading depends on the range, offset or probe ratio that scaled the counts to volts:
  under `a * v + b` with `a > 0` the levels follow the samples and every time stays the same.
*/
module Rescaling {
  import opened Laws
  import opened Histogram
  import opened Crossings
  import opened EdgeTime
  import opened Timing

  function Apply(a: real, b: real, x: real): real {
    a * x + b
  }

  function Scaled(v: seq<real>, a: real, b: real): (s: seq<real>)
    ensures |s| == |v| && forall i :: 0 <= i < |v| ==> s[i] == Apply(a, b, v[i])
  {
    seq(|v|, i requires 0 <= i < |v| => Apply(a, b, v[i]))
  }

  function ScaledLevels(l: Levels, a: real, b: real): Levels {
    Levels(Apply(a, b, l.base), Apply(a, b, l.top))
  }

  // ---------------------------------------------------------------- arithmetic

  lemma ApplyOrder(a: real, b: real, x: real, y: real)
    requires a > 0.0
    ensures Apply(a, b, x) < Apply(a, b, y) <==> x < y
  {
    if x < y {
      assert (y - x) * a > 0.0;
    } else {
      assert (x - y) * a >= 0.0;
    }
  }

  lemma CancelFactor(a: real, x: real, y: real)
    requires a != 0.0 && y != 0.0
    ensures a * y != 0.0 && (a * x) / (a * y) == x / y
  {
    var q := x / y;
    assert q * y == x;
    assert q * (a * y) == a * (q * y);
  }

  lemma FractionScaled(before: real, after: real, level: real, a: real, b: real)
    requires a > 0.0
    ensures FractionAt(Apply(a, b, before), Apply(a, b, after), Apply(a, b, level)) == FractionAt(before, after, level)
  {
    var span := after - before;
    assert Apply(a, b, after) - Apply(a, b, before) == a * span;
    assert Apply(a, b, level) - Apply(a, b, before) == a * (level - before);
    if span != 0.0 {
      CancelFactor(a, level - before, span);
    }
  }

  lemma MeanScaled(scaled: real, s: real, n: nat, a: real, b: real)
    requires n > 0 && scaled == a * s + Times(b, n)
    ensures Mean(scaled, n) == Apply(a, b, Mean(s, n))
  {
    TimesIsProduct(b, n);
    var c, q := n as real, s / n as real;
    assert q * c == s;
    assert (a * q + b) * c == a * (q * c) + b * c;
    QuotientIs(scaled, c, a * q + b);
  }

  lemma QuotientIs(x: real, y: real, q: real)
    requires y != 0.0 && q * y == x
    ensures x / y == q
  {
    assert (x / y - q) * y == 0.0;
  }

  // ---------------------------------------------------------------- levels

  lemma ExtremesScaled(v: seq<real>, a: real, b: real)
    requires a > 0.0 && |v| > 0
    ensures Least(Scaled(v, a, b)) == Apply(a, b, Least(v))
    ensures Most(Scaled(v, a, b)) == Apply(a, b, Most(v))
  {
    hide Apply, Least, Most;
    var s := Scaled(v, a, b);
    var i :| 0 <= i < |v| && v[i] == Least(v);
    var j :| 0 <= j < |s| && s[j] == Least(s);
    assert Least(s) <= s[i] && Least(v) <= v[j];
    ApplyOrder(a, b, v[j], v[i]);
    var k :| 0 <= k < |v| && v[k] == Most(v);
    var l :| 0 <= l < |s| && s[l] == Most(s);
    assert Most(s) >= s[k] && Most(v) >= v[l];
    ApplyOrder(a, b, v[k], v[l]);
  }

  lemma BinCancels(scaledAbove: real, scaledWidth: real, above: real, width: real, a: real)
    requires a > 0.0 && above >= 0.0 && width > 0.0
    requires scaledAbove == a * above >= 0.0 && scaledWidth == a * width > 0.0
    ensures Bin(scaledAbove, scaledWidth) == Bin(above, width)
  {
    CancelFactor(a, above, width);
  }

  lemma BinScaled(x: real, least: real, most: real, a: real, b: real)
    requires a > 0.0 && least <= x && least < most
    ensures Apply(a, b, least) <= Apply(a, b, x) && Apply(a, b, least) < Apply(a, b, most)
    ensures Bin(Apply(a, b, x) - Apply(a, b, least), (Apply(a, b, most) - Apply(a, b, least)) / BINS as real)
              == Bin(x - least, (most - least) / BINS as real)
  {
    ApplyOrder(a, b, least, most);
    ApplyOrder(a, b, x, least);
    hide Bin;
    var width := (most - least) / BINS as real;
    var scaledAbove := Apply(a, b, x) - Apply(a, b, least);
    var scaledWidth := (Apply(a, b, most) - Apply(a, b, least)) / BINS as real;
    BinCancels(scaledAbove, scaledWidth, x - least, width, a);
  }

  lemma BinsScaled(v: seq<real>, a: real, b: real)
    requires a > 0.0 && |v| > 0
    ensures Varies(Scaled(v, a, b)) <==> Varies(v)
    ensures Varies(v) ==> BinsOf(Scaled(v, a, b)) == BinsOf(v)
  {
    hide Apply, Bin, Least, Most;
    ExtremesScaled(v, a, b);
    ApplyOrder(a, b, Least(v), Most(v));
    if Varies(v) {
      var s := Scaled(v, a, b);
      forall i | 0 <= i < |v| ensures BinsOf(s)[i] == BinsOf(v)[i] {
        BinScaled(v[i], Least(v), Most(v), a, b);
      }
    }
  }

  lemma {:induction false} SumScaled(bins: seq<nat>, v: seq<real>, k: nat, a: real, b: real)
    requires |bins| == |v|
    ensures SumIn(bins, Scaled(v, a, b), k) == a * SumIn(bins, v, k) + Times(b, CountIn(bins, k))
  {
    if bins != [] {
      var n := |v| - 1;
      SumScaled(bins[..n], v[..n], k, a, b);
      assert Scaled(v, a, b)[..n] == Scaled(v[..n], a, b);
      if bins[n] == k {
        Distributes(SumIn(bins[..n], v[..n], k), v[n], a);
      }
    }
  }

  lemma HalfLevelScaled(bins: seq<nat>, v: seq<real>, from: nat, to: nat, extreme: real, a: real, b: real)
    requires |bins| == |v| && from < to && Total(bins, from, to) > 0
    ensures HalfLevel(bins, Scaled(v, a, b), from, to, Apply(a, b, extreme))
              == Apply(a, b, HalfLevel(bins, v, from, to, extreme))
  {
    hide Apply, Mean;
    var best := FullestBin(bins, from, to);
    FullestIsNonEmpty(bins, from, to);
    SumScaled(bins, v, best, a, b);
    MeanScaled(SumIn(bins, Scaled(v, a, b), best), SumIn(bins, v, best), CountIn(bins, best), a, b);
  }

  /** Base and top follow the samples; a record measurable before is measurable after, and conversely. */
  lemma LevelsFollow(v: seq<real>, a: real, b: real)
    requires a > 0.0
    ensures LevelsOf(Scaled(v, a, b)) ==
              match LevelsOf(v)
              case Unmeasurable(reason) => Unmeasurable(reason)
              case Ok(l) => Ok(ScaledLevels(l, a, b))
  {
    hide Apply, Mean, HalfLevel;
    if |v| > 0 {
      BinsScaled(v, a, b);
      ExtremesScaled(v, a, b);
      if Varies(v) {
        HalvesOccupied(v);
        HalfLevelScaled(BinsOf(v), v, 0, HALF, Least(v), a, b);
        HalfLevelScaled(BinsOf(v), v, HALF, BINS, Most(v), a, b);
      }
    }
  }

  // ---------------------------------------------------------------- crossings

  lemma SideScaled(x: real, level: real, band: real, a: real, b: real)
    requires a > 0.0
    ensures SideOf(Apply(a, b, x), Apply(a, b, level), a * band) == SideOf(x, level, band)
  {
    assert Apply(a, b, level) + a * band == Apply(a, b, level + band);
    assert Apply(a, b, level) - a * band == Apply(a, b, level - band);
    ApplyOrder(a, b, x, level + band);
    ApplyOrder(a, b, level - band, x);
  }

  lemma {:induction false} LastDecidedScaled(v: seq<real>, level: real, band: real, n: nat, a: real, b: real)
    requires a > 0.0 && n <= |v|
    ensures LastDecided(Scaled(v, a, b), Apply(a, b, level), a * band, n) == LastDecided(v, level, band, n)
  {
    if n > 0 {
      SideScaled(v[n - 1], level, band, a, b);
      LastDecidedScaled(v, level, band, n - 1, a, b);
    }
  }

  lemma {:induction false} StraddleScaled(v: seq<real>, level: real, rising: bool, i: nat, a: real, b: real)
    requires a > 0.0 && i < |v|
    ensures Straddle(Scaled(v, a, b), Apply(a, b, level), rising, i) == Straddle(v, level, rising, i)
  {
    hide Apply;
    if i > 0 {
      ApplyOrder(a, b, v[i - 1], level);
      ApplyOrder(a, b, level, v[i - 1]);
      StraddleScaled(v, level, rising, i - 1, a, b);
    }
  }

  lemma CompletesScaled(v: seq<real>, level: real, band: real, i: nat, a: real, b: real)
    requires a > 0.0 && i < |v|
    ensures
      var s, m := Scaled(v, a, b), Apply(a, b, level);
      && (Completes(s, m, a * band, i) <==> Completes(v, level, band, i))
      && EdgeAt(s, m, a * band, i) == EdgeAt(v, level, band, i)
  {
    hide Apply, SideOf, Straddle, LastDecided;
    LastDecidedScaled(v, level, band, i, a, b);
    var p := LastDecided(v, level, band, i);
    if p >= 0 {
      SideScaled(v[p], level, band, a, b);
    }
    SideScaled(v[i], level, band, a, b);
    StraddleScaled(v, level, SideOf(v[i], level, band) == High, i, a, b);
  }

  lemma {:induction false} EdgesScaled(v: seq<real>, level: real, band: real, n: nat, a: real, b: real)
    requires a > 0.0 && n <= |v|
    ensures EdgesOf(Scaled(v, a, b), Apply(a, b, level), a * band, n) == EdgesOf(v, level, band, n)
  {
    hide Apply, Completes, EdgeAt;
    if n > 0 {
      EdgesScaled(v, level, band, n - 1, a, b);
      CompletesScaled(v, level, band, n - 1, a, b);
    }
  }

  lemma PositionScaled(v: seq<real>, level: real, k: nat, a: real, b: real)
    requires a > 0.0 && k < |v| && |v| > 1
    ensures PositionOf(Scaled(v, a, b), Apply(a, b, level), k) == PositionOf(v, level, k)
  {
    hide Apply, FractionAt;
    var from := if k > 0 then k - 1 else 0;
    FractionScaled(v[from], v[from + 1], level, a, b);
  }

  lemma CrossingsScaled(v: seq<real>, interval: real, level: real, band: real, a: real, b: real, scaledBand: real)
    requires a > 0.0 && scaledBand == a * band
    ensures CrossingsOf(Scaled(v, a, b), interval, Apply(a, b, level), scaledBand) == CrossingsOf(v, interval, level, band)
  {
    hide Apply, PositionOf, Seconds, EdgesOf;
    EdgesScaled(v, level, band, |v|, a, b);
    assert EdgesOf(Scaled(v, a, b), Apply(a, b, level), scaledBand, |v|) == EdgesOf(v, level, band, |v|);
    var edges := EdgesOf(v, level, band, |v|);
    forall j | 0 <= j < |edges|
      ensures PositionOf(Scaled(v, a, b), Apply(a, b, level), edges[j].k) == PositionOf(v, level, edges[j].k)
    {
      PositionScaled(v, level, edges[j].k, a, b);
    }
  }

  // ---------------------------------------------------------------- edge times

  lemma {:induction false} LastAtOrBelowScaled(v: seq<real>, low: real, n: nat, a: real, b: real)
    requires a > 0.0 && n <= |v|
    ensures LastAtOrBelow(Scaled(v, a, b), Apply(a, b, low), n) == LastAtOrBelow(v, low, n)
  {
    hide Apply;
    if n > 0 {
      ApplyOrder(a, b, low, v[n - 1]);
      LastAtOrBelowScaled(v, low, n - 1, a, b);
    }
  }

  lemma {:induction false} FirstEndScaled(v: seq<real>, low: real, high: real, i: nat, a: real, b: real)
    requires a > 0.0 && i <= |v|
    ensures FirstEnd(Scaled(v, a, b), Apply(a, b, low), Apply(a, b, high), i) == FirstEnd(v, low, high, i)
    decreases |v| - i
  {
    hide Apply, LastAtOrBelow;
    if i < |v| {
      ApplyOrder(a, b, low, v[i]);
      ApplyOrder(a, b, v[i], high);
      LastAtOrBelowScaled(v, low, i, a, b);
      FirstEndScaled(v, low, high, i + 1, a, b);
    }
  }

  lemma EdgeTimeScaled(v: seq<real>, interval: real, low: real, high: real, a: real, b: real)
    requires a > 0.0
    ensures EdgeTimeOf(Scaled(v, a, b), interval, Apply(a, b, low), Apply(a, b, high)) == EdgeTimeOf(v, interval, low, high)
  {
    hide Apply, LastAtOrBelow, FirstEnd, FractionAt, Seconds;
    FirstEndScaled(v, low, high, 0, a, b);
    var e := FirstEnd(v, low, high, 0);
    if e < |v| {
      LastAtOrBelowScaled(v, low, e, a, b);
      var s := LastAtOrBelow(v, low, e);
      FractionScaled(v[s], v[s + 1], low, a, b);
      FractionScaled(v[e - 1], v[e], high, a, b);
    }
  }

  lemma ApplyNegated(a: real, b: real, x: real)
    ensures -Apply(a, b, x) == Apply(a, -b, -x)
  {}

  lemma FallTimeScaled(v: seq<real>, interval: real, low: real, high: real, a: real, b: real)
    requires a > 0.0
    ensures FallTimeOf(Scaled(v, a, b), interval, Apply(a, b, low), Apply(a, b, high)) == FallTimeOf(v, interval, low, high)
  {
    hide Apply, FallTimeOf, EdgeTimeOf;
    NegatedEdgeIsFallingEdge(v, interval, low, high);
    NegatedEdgeIsFallingEdge(Scaled(v, a, b), interval, Apply(a, b, low), Apply(a, b, high));
    forall i | 0 <= i < |v| ensures Negated(Scaled(v, a, b))[i] == Scaled(Negated(v), a, -b)[i] {
      ApplyNegated(a, b, v[i]);
    }
    assert Negated(Scaled(v, a, b)) == Scaled(Negated(v), a, -b);
    ApplyNegated(a, b, low);
    ApplyNegated(a, b, high);
    EdgeTimeScaled(Negated(v), interval, -high, -low, a, -b);
  }

  // ---------------------------------------------------------------- the readings

  lemma DerivedLevelsScaled(l: Levels, fraction: real, a: real, b: real)
    ensures ScaledLevels(l, a, b).Middle() == Apply(a, b, l.Middle())
    ensures ScaledLevels(l, a, b).Band() == a * l.Band()
    ensures ScaledLevels(l, a, b).At(fraction) == Apply(a, b, l.At(fraction))
  {
    var d := l.top - l.base;
    assert a * l.top - a * l.base == a * d;
    assert a * (l.base + d / 2.0) == a * l.base + (a * d) / 2.0;
    assert fraction * (a * d) == a * (fraction * d);
    assert a * (l.base + fraction * d) == a * l.base + a * (fraction * d);
  }

  /** Period, both widths, rise time and fall time are the same after rescaling, errors included. */
  lemma TimingIgnoresScale(v: seq<real>, interval: real, low: real, high: real, a: real, b: real)
    requires a > 0.0
    ensures PeriodOf(Scaled(v, a, b), interval) == PeriodOf(v, interval)
    ensures forall positive :: WidthOf(Scaled(v, a, b), interval, positive) == WidthOf(v, interval, positive)
    ensures RiseTimeOf(Scaled(v, a, b), interval, low, high) == RiseTimeOf(v, interval, low, high)
    ensures FallOf(Scaled(v, a, b), interval, low, high) == FallOf(v, interval, low, high)
  {
    hide Apply, LevelsOf, ScaledLevels, CrossingsOf, EdgeTimeOf, FallTimeOf,
         Levels.Middle, Levels.Band, Levels.At, PeriodOfCrossings;
    LevelsFollow(v, a, b);
    if LevelsOf(v).Ok? {
      var l := LevelsOf(v).value;
      DerivedLevelsScaled(l, low, a, b);
      DerivedLevelsScaled(l, high, a, b);
      CrossingsScaled(v, interval, l.Middle(), l.Band(), a, b, ScaledLevels(l, a, b).Band());
      EdgeTimeScaled(v, interval, l.At(low), l.At(high), a, b);
      FallTimeScaled(v, interval, l.At(low), l.At(high), a, b);
    }
  }

  lemma FrequencyIgnoresScale(v: seq<real>, interval: real, a: real, b: real)
    requires a > 0.0 && interval > 0.0
    ensures FrequencyOf(Scaled(v, a, b), interval) == FrequencyOf(v, interval)
  {
    hide PeriodOf, Scaled;
    TimingIgnoresScale(v, interval, 0.0, 0.0, a, b);
  }
}
