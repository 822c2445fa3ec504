/**
  The level finder of the PicoScope's host-side measurements: a 256-bin histogram of a
  record, the fullest bin of each half of its range, and the mean of that bin's samples
  (measurements.cpp, `levels`). Samples are exact reals.
*/
module Histogram {

  datatype Reason =
    | EmptyRecord
    | FlatRecord
    | TooFewEdges
    | NoCompleteEdge
    | NoHighPulse
    | NoLowPulse

  /** A reading, or the reason there is none. */
  datatype Result<+T> = Ok(value: T) | Unmeasurable(reason: Reason)

  datatype Levels = Levels(base: real, top: real) {
    function Amplitude(): real { top - base }
    function At(fraction: real): real { base + fraction * Amplitude() }
    function Middle(): real { base + Amplitude() / 2.0 }
    // Half the width of the band a signal must leave before a new crossing counts.
    function Band(): real { Amplitude() * HYSTERESIS }
  }

  const BINS: nat := 256
  const HALF: nat := 128
  const PLATEAU: real := 5.0
  const HYSTERESIS: real := 0.1

  // ---------------------------------------------------------------- extremes

  function Least(v: seq<real>): (r: real)
    requires |v| > 0
    ensures r in v
    ensures forall i :: 0 <= i < |v| ==> r <= v[i]
  {
    if |v| == 1 then v[0]
    else
      var rest := Least(v[..|v| - 1]);
      if v[|v| - 1] < rest then v[|v| - 1] else rest
  }

  function Most(v: seq<real>): (r: real)
    requires |v| > 0
    ensures r in v
    ensures forall i :: 0 <= i < |v| ==> v[i] <= r
  {
    if |v| == 1 then v[0]
    else
      var rest := Most(v[..|v| - 1]);
      if v[|v| - 1] > rest then v[|v| - 1] else rest
  }

  // ---------------------------------------------------------------- binning

  /** A record with two levels to tell apart. */
  predicate Varies(v: seq<real>) {
    |v| > 0 && Least(v) < Most(v)
  }

  function Width(v: seq<real>): (w: real)
    requires Varies(v)
    ensures w > 0.0
  {
    (Most(v) - Least(v)) / BINS as real
  }

  function Mean(sum: real, n: nat): real
    requires n > 0
  {
    sum / n as real
  }

  lemma QuotientSign(x: real, y: real)
    requires x >= 0.0 && y > 0.0
    ensures x / y >= 0.0
  {}

  /** The bin a value `above` the least sample falls in; the topmost sample joins the last bin. */
  function Bin(above: real, width: real): (b: nat)
    requires above >= 0.0 && width > 0.0
    ensures b < BINS
  {
    QuotientSign(above, width);
    var q := (above / width).Floor;
    if q < BINS - 1 then q else BINS - 1
  }

  function BinsOf(v: seq<real>): (bins: seq<nat>)
    requires Varies(v)
    ensures |bins| == |v|
    ensures forall i :: 0 <= i < |v| ==> bins[i] == Bin(v[i] - Least(v), Width(v)) < BINS
  {
    seq(|v|, i requires 0 <= i < |v| => Bin(v[i] - Least(v), Width(v)))
  }

  function CountIn(bins: seq<nat>, b: nat): nat {
    if bins == [] then 0
    else CountIn(bins[..|bins| - 1], b) + (if bins[|bins| - 1] == b then 1 else 0)
  }

  function SumIn(bins: seq<nat>, v: seq<real>, b: nat): real
    requires |bins| == |v|
  {
    if bins == [] then 0.0
    else SumIn(bins[..|bins| - 1], v[..|v| - 1], b) + (if bins[|bins| - 1] == b then v[|v| - 1] else 0.0)
  }

  function Total(bins: seq<nat>, from: nat, to: nat): nat
    requires from <= to
  {
    if from == to then 0 else Total(bins, from, to - 1) + CountIn(bins, to - 1)
  }

  /** `best` is the fullest bin of [from, to), the first one winning a tie. */
  ghost predicate IsFullest(bins: seq<nat>, from: nat, to: nat, best: nat) {
    && from <= best < to
    && (forall b :: from <= b < to ==> CountIn(bins, b) <= CountIn(bins, best))
    && (forall b :: from <= b < best ==> CountIn(bins, b) < CountIn(bins, best))
  }

  function FullestBin(bins: seq<nat>, from: nat, to: nat): (best: nat)
    requires from < to
    ensures IsFullest(bins, from, to, best)
  {
    if to == from + 1 then from
    else
      var rest := FullestBin(bins, from, to - 1);
      if CountIn(bins, to - 1) > CountIn(bins, rest) then to - 1 else rest
  }

  /** The level of one half: its plateau's mean, or its extreme when no bin is a plateau. */
  function HalfLevel(bins: seq<nat>, v: seq<real>, from: nat, to: nat, extreme: real): real
    requires |bins| == |v| && from < to && Total(bins, from, to) > 0
  {
    var best := FullestBin(bins, from, to);
    var uniform := Mean(Total(bins, from, to) as real, to - from);
    FullestIsNonEmpty(bins, from, to);
    if CountIn(bins, best) as real < PLATEAU * uniform then extreme
    else Mean(SumIn(bins, v, best), CountIn(bins, best))
  }

  function LevelsOf(v: seq<real>): Result<Levels> {
    if |v| == 0 then Unmeasurable(EmptyRecord)
    else if Most(v) <= Least(v) then Unmeasurable(FlatRecord)
    else
      HalvesOccupied(v);
      var bins := BinsOf(v);
      Ok(Levels(HalfLevel(bins, v, 0, HALF, Least(v)), HalfLevel(bins, v, HALF, BINS, Most(v))))
  }

  // ---------------------------------------------------------------- occupancy

  lemma {:induction false} CountPositive(bins: seq<nat>, i: nat)
    requires i < |bins|
    ensures CountIn(bins, bins[i]) > 0
  {
    if i < |bins| - 1 {
      CountPositive(bins[..|bins| - 1], i);
    }
  }

  lemma {:induction false} TotalAtLeast(bins: seq<nat>, from: nat, to: nat, b: nat)
    requires from <= b < to
    ensures Total(bins, from, to) >= CountIn(bins, b)
  {
    if b < to - 1 {
      TotalAtLeast(bins, from, to - 1, b);
    }
  }

  lemma {:induction false} TotalAtMost(bins: seq<nat>, from: nat, to: nat, best: nat)
    requires from <= to && forall b :: from <= b < to ==> CountIn(bins, b) <= CountIn(bins, best)
    ensures Total(bins, from, to) <= (to - from) * CountIn(bins, best)
  {
    if from < to {
      TotalAtMost(bins, from, to - 1, best);
      assert (to - from) * CountIn(bins, best) == (to - 1 - from) * CountIn(bins, best) + CountIn(bins, best);
    }
  }

  /** The fullest bin of a half that holds any sample is never empty: no division by zero. */
  lemma FullestIsNonEmpty(bins: seq<nat>, from: nat, to: nat)
    requires from < to && Total(bins, from, to) > 0
    ensures CountIn(bins, FullestBin(bins, from, to)) > 0
  {
    TotalAtMost(bins, from, to, FullestBin(bins, from, to));
  }

  lemma BinBelow(above: real, width: real, n: nat)
    requires above >= 0.0 && width > 0.0 && n < BINS
    ensures Bin(above, width) < n <==> above < n as real * width
    ensures Bin(above, width) >= n <==> above >= n as real * width
  {
    var q := above / width;
    assert q * width == above;
    if q < n as real {
      assert q * width < n as real * width;
    } else {
      assert q * width >= n as real * width;
    }
  }

  lemma OccupiedBy(bins: seq<nat>, from: nat, to: nat, i: nat)
    requires i < |bins| && from <= bins[i] < to
    ensures Total(bins, from, to) > 0
  {
    CountPositive(bins, i);
    TotalAtLeast(bins, from, to, bins[i]);
  }

  lemma HalfWidth(range: real, width: real)
    requires width == range / BINS as real
    ensures HALF as real * width == range / 2.0
  {}

  lemma BinByMiddle(above: real, range: real)
    requires above >= 0.0 && range > 0.0
    ensures Bin(above, range / BINS as real) < HALF <==> above < range / 2.0
  {
    HalfWidth(range, range / BINS as real);
    BinBelow(above, range / BINS as real, HALF);
  }

  lemma HalfByMiddle(v: seq<real>, i: nat)
    requires Varies(v) && i < |v|
    ensures BinsOf(v)[i] < HALF <==> v[i] < (Least(v) + Most(v)) / 2.0
  {
    BinByMiddle(v[i] - Least(v), Most(v) - Least(v));
  }

  /** Both halves of the range hold a sample: the least one and the greatest one. */
  lemma HalvesOccupied(v: seq<real>)
    requires Varies(v)
    ensures Total(BinsOf(v), 0, HALF) > 0
    ensures Total(BinsOf(v), HALF, BINS) > 0
  {
    var i :| 0 <= i < |v| && v[i] == Least(v);
    HalfByMiddle(v, i);
    OccupiedBy(BinsOf(v), 0, HALF, i);
    var j :| 0 <= j < |v| && v[j] == Most(v);
    HalfByMiddle(v, j);
    OccupiedBy(BinsOf(v), HALF, BINS, j);
  }

  // ---------------------------------------------------------------- conservation

  function SumOf(v: seq<real>): real {
    if v == [] then 0.0 else SumOf(v[..|v| - 1]) + v[|v| - 1]
  }

  function SumOverBins(bins: seq<nat>, v: seq<real>, n: nat): real
    requires |bins| == |v|
  {
    if n == 0 then 0.0 else SumOverBins(bins, v, n - 1) + SumIn(bins, v, n - 1)
  }

  lemma {:induction false} TotalSnoc(bins: seq<nat>, x: nat, n: nat)
    ensures Total(bins + [x], 0, n) == Total(bins, 0, n) + (if x < n then 1 else 0)
  {
    if n > 0 {
      TotalSnoc(bins, x, n - 1);
      assert (bins + [x])[..|bins|] == bins;
    }
  }

  lemma {:induction false} SumOverBinsSnoc(bins: seq<nat>, v: seq<real>, x: nat, y: real, n: nat)
    requires |bins| == |v|
    ensures SumOverBins(bins + [x], v + [y], n) == SumOverBins(bins, v, n) + (if x < n then y else 0.0)
  {
    if n > 0 {
      SumOverBinsSnoc(bins, v, x, y, n - 1);
      assert (bins + [x])[..|bins|] == bins && (v + [y])[..|v|] == v;
    }
  }

  lemma {:induction false} EmptyTally(n: nat)
    ensures Total([], 0, n) == 0 && SumOverBins([], [], n) == 0.0
  {
    if n > 0 { EmptyTally(n - 1); }
  }

  /** Nothing is lost or counted twice: the tallies add up to the record. */
  lemma {:induction false} TalliesConserve(bins: seq<nat>, v: seq<real>)
    requires |bins| == |v| && forall i :: 0 <= i < |bins| ==> bins[i] < BINS
    ensures Total(bins, 0, BINS) == |v|
    ensures SumOverBins(bins, v, BINS) == SumOf(v)
  {
    if bins == [] {
      EmptyTally(BINS);
    } else {
      var k := |bins| - 1;
      TalliesConserve(bins[..k], v[..k]);
      TotalSnoc(bins[..k], bins[k], BINS);
      SumOverBinsSnoc(bins[..k], v[..k], bins[k], v[k], BINS);
      assert bins[..k] + [bins[k]] == bins && v[..k] + [v[k]] == v;
    }
  }

  // ---------------------------------------------------------------- what a level is

  /** Bin `b` holds at least five times its even share of the samples in bins `from` to `to`. */
  predicate IsPlateau(bins: seq<nat>, from: nat, to: nat, b: nat) {
    from <= b < to && 5 * Total(bins, from, to) <= CountIn(bins, b) * (to - from)
  }

  /** A half with no plateau is read at its extreme sample, and one with a plateau at the mean of its fullest bin. */
  lemma HalfLevelExactly(bins: seq<nat>, v: seq<real>, from: nat, to: nat, extreme: real)
    requires |bins| == |v| && from < to && Total(bins, from, to) > 0
    ensures (forall b :: from <= b < to ==> !IsPlateau(bins, from, to, b)) ==>
              HalfLevel(bins, v, from, to, extreme) == extreme
    ensures (exists b :: IsPlateau(bins, from, to, b)) ==>
              exists b :: IsPlateau(bins, from, to, b) && IsFullest(bins, from, to, b)
                          && HalfLevel(bins, v, from, to, extreme) * CountIn(bins, b) as real == SumIn(bins, v, b)
  {
    hide HalfLevel, Mean, Total, CountIn, SumIn, IsPlateau, IsFullest;
    var best := FullestBin(bins, from, to);
    FullestIsNonEmpty(bins, from, to);
    HalfLevelIs(bins, v, from, to, extreme);
    PlateauIsFullest(bins, from, to);
    MeanBack(SumIn(bins, v, best), CountIn(bins, best));
  }

  lemma PlateauIsFullest(bins: seq<nat>, from: nat, to: nat)
    requires from < to
    ensures
      var best := FullestBin(bins, from, to);
      && from <= best < to && IsFullest(bins, from, to, best)
      && (IsPlateau(bins, from, to, best) <==>
            CountIn(bins, best) as real >= PLATEAU * Mean(Total(bins, from, to) as real, to - from))
      && forall b :: IsPlateau(bins, from, to, b) ==> IsPlateau(bins, from, to, best)
  {
    hide Total, CountIn, IsPlateau, Mean;
    var best := FullestBin(bins, from, to);
    PlateauShare(bins, from, to, best);
    forall b | IsPlateau(bins, from, to, b) ensures IsPlateau(bins, from, to, best) {
      PlateauShare(bins, from, to, b);
    }
  }

  lemma PlateauShare(bins: seq<nat>, from: nat, to: nat, b: nat)
    requires from < to
    ensures IsPlateau(bins, from, to, b) <==>
            from <= b < to && CountIn(bins, b) as real >= PLATEAU * Mean(Total(bins, from, to) as real, to - from)
  {
    hide Total, CountIn, Mean;
    EvenShare(CountIn(bins, b), Total(bins, from, to), to - from);
  }

  lemma HalfLevelIs(bins: seq<nat>, v: seq<real>, from: nat, to: nat, extreme: real)
    requires |bins| == |v| && from < to && Total(bins, from, to) > 0 && CountIn(bins, FullestBin(bins, from, to)) > 0
    ensures
      var best := FullestBin(bins, from, to);
      HalfLevel(bins, v, from, to, extreme) ==
      if CountIn(bins, best) as real < PLATEAU * Mean(Total(bins, from, to) as real, to - from) then extreme
      else Mean(SumIn(bins, v, best), CountIn(bins, best))
  {}

  lemma EvenShare(count: nat, total: nat, span: nat)
    requires span > 0
    ensures count as real < PLATEAU * Mean(total as real, span) <==> count * span < 5 * total
  {
    hide Mean;
    var share, n := Mean(total as real, span), span as real;
    MeanBack(total as real, span);
    assert (count * span) as real == count as real * n;
    QuotientOrder(5.0 * total as real, n, count as real);
    assert PLATEAU * share == 5.0 * total as real / n by { ScaledQuotient(total as real, n, share); }
  }

  lemma ScaledQuotient(x: real, n: real, share: real)
    requires n > 0.0 && share * n == x
    ensures PLATEAU * share == 5.0 * x / n
  {
    var q := 5.0 * x / n;
    assert q * n == 5.0 * x;
    assert (q - 5.0 * share) * n == 0.0;
  }

  lemma MeanBack(sum: real, n: nat)
    requires n > 0
    ensures Mean(sum, n) * n as real == sum
  {}

  /** The bins are 256 even slices of the range from the least sample to the greatest. */
  lemma BinsAreSlices(v: seq<real>, i: nat)
    requires Varies(v) && i < |v|
    ensures
      var b, slice := BinsOf(v)[i], (Most(v) - Least(v)) / 256.0;
      && b < 256 && Least(v) + b as real * slice <= v[i]
      && (if b < 255 then v[i] < Least(v) + (b + 1) as real * slice else v[i] <= Most(v))
  {
    hide Bin, Least, Most;
    var b, above := BinsOf(v)[i], v[i] - Least(v);
    BinBelow(above, Width(v), b);
    if b < 255 {
      BinBelow(above, Width(v), b + 1);
    }
  }

  // ---------------------------------------------------------------- bounds

  /** `x` added up `n` times. */
  function Times(x: real, n: nat): real {
    if n == 0 then 0.0 else Times(x, n - 1) + x
  }

  lemma {:induction false} TimesIsProduct(x: real, n: nat)
    ensures Times(x, n) == x * n as real
  {
    if n > 0 {
      TimesIsProduct(x, n - 1);
      assert x * n as real == x * (n - 1) as real + x;
    }
  }

  lemma {:induction false} SumBounds(bins: seq<nat>, v: seq<real>, b: nat, lo: real, hi: real)
    requires |bins| == |v|
    requires forall i :: 0 <= i < |v| && bins[i] == b ==> lo <= v[i] <= hi
    ensures Times(lo, CountIn(bins, b)) <= SumIn(bins, v, b) <= Times(hi, CountIn(bins, b))
  {
    if bins != [] {
      SumBounds(bins[..|bins| - 1], v[..|v| - 1], b, lo, hi);
    }
  }

  /** As SumBounds, with a strict upper bound that a non-empty bin keeps strict. */
  lemma {:induction false} SumStrictlyBelow(bins: seq<nat>, v: seq<real>, b: nat, hi: real)
    requires |bins| == |v|
    requires forall i :: 0 <= i < |v| && bins[i] == b ==> v[i] < hi
    ensures CountIn(bins, b) > 0 ==> SumIn(bins, v, b) < Times(hi, CountIn(bins, b))
    ensures CountIn(bins, b) == 0 ==> SumIn(bins, v, b) == 0.0
  {
    if bins != [] {
      SumStrictlyBelow(bins[..|bins| - 1], v[..|v| - 1], b, hi);
    }
  }

  lemma QuotientOrder(s: real, n: real, x: real)
    requires n > 0.0
    ensures x * n <= s <==> x <= s / n
    ensures s <= x * n <==> s / n <= x
  {
    var q := s / n;
    assert q * n == s;
    if x <= q {
      assert (q - x) * n >= 0.0;
    } else {
      assert (x - q) * n > 0.0;
    }
    if q <= x {
      assert (x - q) * n >= 0.0;
    } else {
      assert (q - x) * n > 0.0;
    }
  }

  lemma MeanOrder(s: real, n: nat, x: real)
    requires n > 0
    ensures Times(x, n) <= s <==> x <= Mean(s, n)
    ensures s <= Times(x, n) <==> Mean(s, n) <= x
  {
    TimesIsProduct(x, n);
    QuotientOrder(s, n as real, x);
  }

  /** A half's level lies where its samples do; strictly below `hi` when they and the extreme are. */
  lemma HalfLevelBounds(bins: seq<nat>, v: seq<real>, from: nat, to: nat, extreme: real, lo: real, hi: real)
    requires |bins| == |v| && from < to && Total(bins, from, to) > 0 && lo <= extreme <= hi
    requires forall i :: 0 <= i < |v| && from <= bins[i] < to ==> lo <= v[i] <= hi
    ensures lo <= HalfLevel(bins, v, from, to, extreme) <= hi
    ensures extreme < hi && (forall i :: 0 <= i < |v| && from <= bins[i] < to ==> v[i] < hi) ==>
              HalfLevel(bins, v, from, to, extreme) < hi
  {
    hide Mean;
    var best := FullestBin(bins, from, to);
    FullestIsNonEmpty(bins, from, to);
    var s, c := SumIn(bins, v, best), CountIn(bins, best);
    SumBounds(bins, v, best, lo, hi);
    MeanOrder(s, c, lo);
    MeanOrder(s, c, hi);
    if forall i :: 0 <= i < |v| && from <= bins[i] < to ==> v[i] < hi {
      SumStrictlyBelow(bins, v, best, hi);
    }
  }

  /** Levels exist exactly for a record that is neither empty nor flat; they straddle its middle. */
  lemma LevelsStraddleTheMiddle(v: seq<real>)
    ensures LevelsOf(v).Ok? <==> Varies(v)
    ensures Varies(v) ==>
      var levels := LevelsOf(v).value;
      var middle := (Least(v) + Most(v)) / 2.0;
      && Least(v) <= levels.base < middle <= levels.top <= Most(v)
      && 0.0 < levels.Amplitude() <= Most(v) - Least(v)
  {
    if Varies(v) {
      HalvesOccupied(v);
      var bins, least, most := BinsOf(v), Least(v), Most(v);
      var middle := (least + most) / 2.0;
      forall i | 0 <= i < |v| ensures bins[i] < HALF <==> v[i] < middle {
        HalfByMiddle(v, i);
      }
      HalfLevelBounds(bins, v, 0, HALF, least, least, middle);
      HalfLevelBounds(bins, v, HALF, BINS, most, middle, most);
    }
  }

  // ---------------------------------------------------------------- the algorithm

  method Fullest(ghost bins: seq<nat>, ghost v: seq<real>, count: array<nat>, sum: array<real>,
                 from: nat, to: nat, extreme: real) returns (level: real)
    requires |bins| == |v| && from < to <= count.Length && count.Length == sum.Length
    requires forall b :: 0 <= b < count.Length ==> count[b] == CountIn(bins, b) && sum[b] == SumIn(bins, v, b)
    requires Total(bins, from, to) > 0
    ensures level == HalfLevel(bins, v, from, to, extreme)
  {
    var best, total := from, 0;
    for bin := from to to
      invariant total == Total(bins, from, bin)
      invariant from <= best < to
      invariant bin > from ==> best == FullestBin(bins, from, bin)
      invariant bin == from ==> best == from
    {
      total := total + count[bin];
      if count[bin] > count[best] {
        best := bin;
      }
    }
    var uniform := Mean(total as real, to - from);
    FullestIsNonEmpty(bins, from, to);
    if count[best] as real < PLATEAU * uniform {
      return extreme;
    }
    return Mean(sum[best], count[best]);
  }

  method Tally(v: seq<real>, least: real, width: real) returns (count: array<nat>, sum: array<real>)
    requires Varies(v) && least == Least(v) && width == Width(v)
    ensures fresh(count) && fresh(sum) && count.Length == sum.Length == BINS
    ensures forall b :: 0 <= b < BINS ==> count[b] == CountIn(BinsOf(v), b) && sum[b] == SumIn(BinsOf(v), v, b)
  {
    hide Bin, Least, Most, Width;
    count := new nat[BINS](_ => 0);
    sum := new real[BINS](_ => 0.0);
    ghost var bins := BinsOf(v);
    for i := 0 to |v|
      invariant forall b :: 0 <= b < BINS ==> count[b] == CountIn(bins[..i], b)
      invariant forall b :: 0 <= b < BINS ==> sum[b] == SumIn(bins[..i], v[..i], b)
    {
      assert bins[..i + 1][..i] == bins[..i] && v[..i + 1][..i] == v[..i];
      var bin := Bin(v[i] - least, width);
      count[bin] := count[bin] + 1;
      sum[bin] := sum[bin] + v[i];
    }
    assert bins[..|v|] == bins && v[..|v|] == v;
  }

  method FindLevels(v: seq<real>) returns (r: Result<Levels>)
    ensures r == LevelsOf(v)
  {
    hide Mean;
    if |v| == 0 {
      return Unmeasurable(EmptyRecord);
    }
    var least, most := Least(v), Most(v);
    if most <= least {
      return Unmeasurable(FlatRecord);
    }
    var width := (most - least) / BINS as real;
    var count, sum := Tally(v, least, width);
    HalvesOccupied(v);
    var base := Fullest(BinsOf(v), v, count, sum, 0, HALF, least);
    var top := Fullest(BinsOf(v), v, count, sum, HALF, BINS, most);
    return Ok(Levels(base, top));
  }
}
