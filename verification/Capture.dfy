/**
  The arithmetic of a block capture (oscilloscope.cpp, `rangeIndexFor`, `planCapture` and the two
  conversions between volts at the probe tip and ADC counts). Reals are exact; counts and sample
  numbers are unbounded integers.
*/
module Capture {
  import opened Laws
  import opened Optional
  import opened Timebase

  const DIVISIONS: real := 10.0
  const RANGES: seq<real> := [0.01, 0.02, 0.05, 0.1, 0.2, 0.5, 1.0, 2.0, 5.0, 10.0, 20.0]
  const TOLERANCE: real := 1.000000001

  // ---------------------------------------------------------------- rounding

  /** The nearest integer, halves away from zero. */
  function Rounded(x: real): (n: int)
    ensures x - 0.5 <= n as real <= x + 0.5
    ensures x >= 0.0 ==> n >= 0 && x - 0.5 < n as real
    ensures x <= 0.0 ==> n <= 0 && n as real < x + 0.5
  {
    if x >= 0.0 then (x + 0.5).Floor else -(-x + 0.5).Floor
  }

  // ---------------------------------------------------------------- ranges

  /** The smallest range from the `index`-th on that holds +/-`volts`. */
  function RangeFrom(volts: real, index: nat): (r: Option<nat>)
    requires index <= |RANGES|
    ensures r.Some? ==> index <= r.value < |RANGES| && volts <= RANGES[r.value] * TOLERANCE
                        && forall i :: index <= i < r.value ==> RANGES[i] * TOLERANCE < volts
    ensures r.None? ==> forall i :: index <= i < |RANGES| ==> RANGES[i] * TOLERANCE < volts
    decreases |RANGES| - index
  {
    if index == |RANGES| then None
    else if volts <= RANGES[index] * TOLERANCE then Some(index)
    else RangeFrom(volts, index + 1)
  }

  function RangeFor(volts: real): Option<nat> {
    RangeFrom(volts, 0)
  }

  /** The smallest range that holds +/-`volts` at the input, or None beyond the largest. */
  method RangeIndexFor(volts: real) returns (r: Option<nat>)
    ensures r == RangeFor(volts)
    ensures r.Some? ==> r.value < |RANGES| && volts <= RANGES[r.value] * TOLERANCE
                        && forall i :: 0 <= i < r.value ==> RANGES[i] * TOLERANCE < volts
    ensures r.None? <==> RANGES[|RANGES| - 1] * TOLERANCE < volts
  {
    var index := 0;
    while index < |RANGES|
      invariant index <= |RANGES| && RangeFor(volts) == RangeFrom(volts, index)
    {
      if volts <= RANGES[index] * TOLERANCE {
        return Some(index);
      }
      index := index + 1;
    }
    return None;
  }

  // ---------------------------------------------------------------- planning

  datatype Reference = Left | Center | Right

  function ReferenceFraction(r: Reference): real {
    match r
    case Left => 0.0
    case Center => 0.5
    case Right => 1.0
  }

  /** What one block capture is going to be; `origin` is the first sample's time from the trigger. */
  datatype Plan = Plan(timebase: nat, interval: real, pre: int, post: int, delay: int, origin: real) {
    function Samples(): int { pre + post }
  }

  datatype Settings = Settings(
    timePerDivision: Option<real>, points: nat, position: real, reference: Reference)
  {
    /** What configureTimebase lets in. */
    predicate Configured() {
      (timePerDivision.Some? ==> timePerDivision.value > 0.0) && points >= 2
    }
    function Window(): real
      requires timePerDivision.Some?
    {
      timePerDivision.value * DIVISIONS
    }
    function First(): real
      requires timePerDivision.Some?
    {
      position - ReferenceFraction(reference) * Window()
    }
  }

  datatype Refusal = NoTimebaseSet | NoValidTimebase | CapacityUnknown | WindowTooLong

  datatype Planned = Ready(plan: Plan) | Refused(why: Refusal)

  /** A capture counted in samples: `window` and `first` in units of the sample interval. */
  datatype Shape = Shape(pre: int, post: int, delay: int) {
    function Samples(): int { pre + post }
    // The first sample's place, in samples from the trigger.
    function Start(): int { delay - pre }
  }

  function ShapeOf(window: real, first: real): Shape {
    var rounded := Rounded(window);
    var samples := if rounded < 2 then 2 else rounded;
    if first >= 0.0 then Shape(0, samples, Rounded(first))
    else
      var wanted := Rounded(-first);
      var pre := if wanted < samples - 1 then wanted else samples - 1;
      Shape(pre, samples - pre, 0)
  }

  function PlanOf(timebase: nat, interval: real, window: real, first: real): Plan
    requires interval > 0.0
  {
    InSeconds(timebase, interval, ShapeOf(window / interval, first / interval))
  }

  function InSeconds(timebase: nat, interval: real, shape: Shape): Plan {
    Plan(timebase, interval, shape.pre, shape.post, shape.delay, shape.Start() as real * interval)
  }

  /** Both counts are usable, the window is covered, and pre-trigger samples and a delay never meet. */
  lemma ShapeIsWellFormed(window: real, first: real)
    ensures
      var p := ShapeOf(window, first);
      && p.pre >= 0 && p.post >= 1 && p.delay >= 0 && p.Samples() >= 2
      && (p.pre == 0 || p.delay == 0)
      && p.Samples() as real >= window - 0.5
      && (window >= 2.0 ==> p.Samples() as real <= window + 0.5)
  {}

  /**
    In samples: the record starts at the nearest whole sample to where it was asked to start
    exactly when the clamp that keeps one post-trigger sample leaves it within half a sample.
  */
  lemma StartIsNearestExactly(window: real, first: real)
    ensures
      var p := ShapeOf(window, first);
      (first - 0.5 <= p.Start() as real <= first + 0.5) <==> (first + p.Samples() as real - 0.5 >= 0.0)
  {}

  lemma SignOf(x: real, y: real)
    requires y > 0.0
    ensures x * y >= 0.0 <==> x >= 0.0
  {}

  lemma Rescale(x: real, limit: real, unit: real)
    requires unit > 0.0
    ensures x * unit <= limit * unit <==> x <= limit
  {
    SignOf(limit - x, unit);
    assert (limit - x) * unit == limit * unit - x * unit;
  }

  lemma SamplesToSeconds(f: real, start: real, interval: real, first: real)
    requires interval > 0.0 && f * interval == first
    ensures first - interval / 2.0 <= start * interval <==> f - 0.5 <= start
    ensures start * interval <= first + interval / 2.0 <==> start <= f + 0.5
  {
    var x, y := start - f + 0.5, f - start + 0.5;
    SignOf(x, interval);
    assert x * interval == start * interval - f * interval + interval / 2.0;
    SignOf(y, interval);
    assert y * interval == f * interval - start * interval + interval / 2.0;
  }

  lemma ReachInSeconds(f: real, n: real, interval: real, first: real)
    requires interval > 0.0 && f * interval == first
    ensures (first + (n - 0.5) * interval >= 0.0) <==> (f + n - 0.5 >= 0.0)
  {
    Distributes(f, n - 0.5, interval);
    SignOf(f + (n - 0.5), interval);
  }

  lemma QuotientBack(x: real, y: real)
    requires y != 0.0
    ensures x / y * y == x
  {}

  /** In seconds: the record starts within half a sample interval of the start asked for, or later by the clamp. */
  lemma OriginIsNearestExactly(timebase: nat, interval: real, window: real, first: real)
    requires interval > 0.0
    ensures
      var p := PlanOf(timebase, interval, window, first);
      (first - interval / 2.0 <= p.origin <= first + interval / 2.0)
        <==> (first + (p.Samples() as real - 0.5) * interval >= 0.0)
  {
    hide ShapeOf;
    var w, f := window / interval, first / interval;
    var shape := ShapeOf(w, f);
    StartIsNearestExactly(w, f);
    QuotientBack(first, interval);
    SamplesToSeconds(f, shape.Start() as real, interval, first);
    ReachInSeconds(f, shape.Samples() as real, interval, first);
  }

  lemma QuotientReaches(window: real, interval: real, n: real)
    requires interval > 0.0 && n > 0.0 && interval <= window / n
    ensures n <= window / interval
  {
    QuotientBack(window, n);
    QuotientBack(window, interval);
    Rescale(interval, window / n, n);
    assert n * interval == interval * n;
    Rescale(n, window / interval, interval);
  }

  lemma SamplesReach(window: real, first: real, points: nat)
    requires window >= points as real
    ensures ShapeOf(window, first).Samples() >= points
  {}

  /** Asking for `points` samples gives that many, unless even the finest interval is too coarse. */
  lemma EnoughPoints(timebase: nat, interval: real, window: real, first: real, points: nat)
    requires interval > 0.0 && points >= 2 && interval <= window / points as real
    ensures PlanOf(timebase, interval, window, first).Samples() >= points
  {
    hide ShapeOf;
    QuotientReaches(window, interval, points as real);
    SamplesReach(window / interval, first / interval, points);
  }

  // ---------------------------------------------------------------- where the window is

  /** A window of ten divisions that begins at `start` has its left end, its middle or its right end at the position. */
  predicate Begins(s: Settings, start: real)
    requires s.timePerDivision.Some?
  {
    var window := 10.0 * s.timePerDivision.value;
    match s.reference
    case Left => start == s.position
    case Center => start + window / 2.0 == s.position
    case Right => start + window == s.position
  }

  /**
    A plan of a window that is to begin at `start`: as long as the window to half a sample, and
    beginning with it to half a sample exactly where its one post-trigger sample lets it. Samples are
    taken before the trigger or after a delay, never both, as the window begins before it or after.
  */
  predicate Places(p: Plan, window: real, start: real) {
    && p.pre >= 0 && p.post >= 1 && p.delay >= 0 && p.Samples() == p.pre + p.post >= 2
    && (if start >= 0.0 then p.pre == 0 else p.delay == 0)
    && p.origin == (p.delay - p.pre) as real * p.interval
    && Lasts(p.Samples(), p.interval, window)
    && Starts(p.origin, p.Samples(), p.interval, start)
  }

  /** Never shorter than the window by more than half a sample, nor longer but for being two samples at least. */
  predicate Lasts(samples: int, interval: real, window: real) {
    && window - interval / 2.0 <= samples as real * interval
    && (samples == 2 || samples as real * interval <= window + interval / 2.0)
  }

  predicate Starts(origin: real, samples: int, interval: real, start: real) {
    (start - interval / 2.0 <= origin <= start + interval / 2.0)
      <==> start + (samples as real - 0.5) * interval >= 0.0
  }

  lemma BeginsSomewhere(s: Settings)
    requires s.timePerDivision.Some?
    ensures Begins(s, s.First()) && s.Window() == 10.0 * s.timePerDivision.value
  {}

  lemma BeginsAtFirst(s: Settings, start: real)
    requires s.timePerDivision.Some? && Begins(s, start)
    ensures s.First() == start && s.Window() == 10.0 * s.timePerDivision.value
  {}

  lemma PlanPlaces(timebase: nat, interval: real, window: real, start: real)
    requires interval > 0.0
    ensures Places(PlanOf(timebase, interval, window, start), window, start)
  {
    hide ShapeOf, InSeconds, Places, Lasts, Starts;
    var w, f := window / interval, start / interval;
    var shape := ShapeOf(w, f);
    ShapeCounts(w, f);
    ShapeSeconds(timebase, interval, shape);
    assert Starts(InSeconds(timebase, interval, shape).origin, shape.Samples(), interval, start) by {
      PlanStarts(timebase, interval, window, start);
    }
    assert Lasts(shape.Samples(), interval, window) by { PlanLasts(w, shape.Samples(), interval, window); }
    QuotientSign(start, interval);
    ShapePlaces(timebase, interval, shape, window, start);
  }

  lemma ShapeSeconds(timebase: nat, interval: real, shape: Shape)
    ensures
      var p := InSeconds(timebase, interval, shape);
      p.pre == shape.pre && p.post == shape.post && p.delay == shape.delay && p.interval == interval
      && p.origin == (p.delay - p.pre) as real * p.interval
  {}

  lemma PlanStarts(timebase: nat, interval: real, window: real, start: real)
    requires interval > 0.0
    ensures
      var shape := ShapeOf(window / interval, start / interval);
      Starts(InSeconds(timebase, interval, shape).origin, shape.Samples(), interval, start)
  {
    hide ShapeOf;
    OriginIsNearestExactly(timebase, interval, window, start);
  }

  lemma PlanLasts(w: real, samples: int, interval: real, window: real)
    requires interval > 0.0 && w == window / interval && w - 0.5 <= samples as real
    requires samples == 2 || samples as real <= w + 0.5
    ensures Lasts(samples, interval, window)
  {
    SamplesInSeconds(w, samples as real, interval, window);
  }

  lemma ShapePlaces(timebase: nat, interval: real, shape: Shape, window: real, start: real)
    requires shape.pre >= 0 && shape.post >= 1 && shape.delay >= 0 && shape.Samples() >= 2
    requires if start >= 0.0 then shape.pre == 0 else shape.delay == 0
    requires Lasts(shape.Samples(), interval, window)
    requires Starts(InSeconds(timebase, interval, shape).origin, shape.Samples(), interval, start)
    ensures Places(InSeconds(timebase, interval, shape), window, start)
  {
    hide InSeconds, Lasts, Starts;
    ShapeSeconds(timebase, interval, shape);
  }

  lemma QuotientSign(x: real, y: real)
    requires y > 0.0
    ensures x / y >= 0.0 <==> x >= 0.0
  {
    QuotientBack(x, y);
    SignOf(x / y, y);
  }

  lemma ShapeCounts(window: real, first: real)
    ensures
      var p := ShapeOf(window, first);
      && p.pre >= 0 && p.post >= 1 && p.delay >= 0 && p.Samples() >= 2
      && (if first >= 0.0 then p.pre == 0 else p.delay == 0)
      && (p.Samples() == 2 || window - 0.5 <= p.Samples() as real <= window + 0.5)
      && p.Samples() as real >= window - 0.5
  {}

  lemma SamplesInSeconds(w: real, samples: real, interval: real, window: real)
    requires interval > 0.0 && w == window / interval
    ensures w - 0.5 <= samples <==> window - interval / 2.0 <= samples * interval
    ensures samples <= w + 0.5 <==> samples * interval <= window + interval / 2.0
  {
    assert w * interval == window by { QuotientBack(window, interval); }
    var below, above := w - 0.5, w + 0.5;
    Distributes(w, -0.5, interval);
    Distributes(w, 0.5, interval);
    assert below * interval == window - interval / 2.0;
    assert above * interval == window + interval / 2.0;
    Rescale(below, samples, interval);
    Rescale(samples, above, interval);
  }

  /** A plan on a timebase of the SDK, of the window asked for. */
  predicate Suits(p: Plan, api: Sdk, s: Settings, start: real)
    requires s.timePerDivision.Some?
  {
    api(p.timebase) == Some(p.interval) && Places(p, 10.0 * s.timePerDivision.value, start)
  }

  /** What is made of the timebase the search found: `capacity` is what GetTimebase2 says, if it answers, of the memory. */
  function PlannedOn(found: Option<Found>, capacity: (nat, int) -> Option<int>, s: Settings): Planned
    requires s.timePerDivision.Some? && (found.Some? ==> found.value.interval > 0.0)
  {
    if found.None? then Refused(NoValidTimebase)
    else
      var plan := PlanOf(found.value.timebase, found.value.interval, s.Window(), s.First());
      var held := capacity(plan.timebase, plan.Samples());
      if held.None? then Refused(CapacityUnknown)
      else if plan.Samples() > held.value then Refused(WindowTooLong)
      else Ready(plan)
  }

  /** The plan, or the reason there is none, of the timebase the search found for the window and the points. */
  method PlanCapture(api: Sdk, capacity: (nat, int) -> Option<int>, s: Settings)
      returns (r: Planned, ghost found: Option<Found>)
    requires s.Configured()
    requires forall t: nat :: api(t).Some? ==> api(t).value > 0.0
    ensures r == Refused(NoTimebaseSet) <==> s.timePerDivision.None?
    ensures s.timePerDivision.Some? ==>
              && (found.None? <==> forall t: nat :: t <= LAST_FIRST ==> !Valid(api, t))
              && (found.Some? ==> found.value.interval > 0.0 && Chosen(api, s.Window() / s.points as real, found.value))
              && r == PlannedOn(found, capacity, s)
    ensures r.Ready? ==>
              && api(r.plan.timebase) == Some(r.plan.interval)
              && r.plan == PlanOf(r.plan.timebase, r.plan.interval, s.Window(), s.First())
    ensures r.Ready? && Documented(api) ==>
              forall t: nat :: t < CEILING && api(t).Some? && api(t).value <= s.Window() / s.points as real ==>
                t <= r.plan.timebase && api(t).value <= r.plan.interval <= s.Window() / s.points as real
    ensures r.Ready? ==> forall start: real :: Begins(s, start) ==> Suits(r.plan, api, s, start)
    ensures r.Ready? ==>
              var held := capacity(r.plan.timebase, r.plan.pre + r.plan.post);
              held.Some? && r.plan.pre + r.plan.post <= held.value
    ensures r == Refused(CapacityUnknown) || r == Refused(WindowTooLong) ==>
              exists p: Plan, start: real :: Begins(s, start) && Suits(p, api, s, start)
                && var held := capacity(p.timebase, p.pre + p.post);
                  if r.why.CapacityUnknown? then held.None? else held.Some? && held.value < p.pre + p.post
    ensures r.Ready? && r.plan.Samples() < s.points ==>
              exists first: nat :: FirstValid(api, first) && r.plan.timebase == first
                                   && r.plan.interval > s.Window() / s.points as real
  {
    hide ShapeOf, IsBest, Places, Begins;
    found := None;
    if s.timePerDivision.None? {
      return Refused(NoTimebaseSet), found;
    }
    var window := s.timePerDivision.value * DIVISIONS;
    var points := s.points as real;
    var answer, _ := FindTimebase(api, window / points);
    found := answer;
    if answer.None? {
      return Refused(NoValidTimebase), found;
    }
    var timebase, interval := answer.value.timebase, answer.value.interval;
    ChosenIsValid(api, window / points, answer.value);
    var first := s.position - ReferenceFraction(s.reference) * window;
    var plan := PlanOf(timebase, interval, window, first);
    if interval <= window / points {
      EnoughPoints(timebase, interval, window, first, s.points);
    }
    PlanPlaces(timebase, interval, window, first);
    BeginsSomewhere(s);
    assert Suits(plan, api, s, first);
    var held := capacity(timebase, plan.Samples());
    if held.None? {
      return Refused(CapacityUnknown), found;
    }
    if plan.Samples() > held.value {
      return Refused(WindowTooLong), found;
    }
    forall start: real | Begins(s, start) ensures Suits(plan, api, s, start) {
      BeginsAtFirst(s, start);
    }
    return Ready(plan), found;
  }

  /** What the search found is one of the SDK's timebases, and too coarse only as the first valid one. */
  lemma ChosenIsValid(api: Sdk, target: real, found: Found)
    requires Chosen(api, target, found)
    ensures api(found.timebase) == Some(found.interval)
    ensures found.interval > target ==> FirstValid(api, found.timebase)
  {}

  // ---------------------------------------------------------------- volts and counts

  /** A channel as it was pushed: +/-range and offset at the input, probe ratio, full scale of the ADC. */
  datatype Scaling = Scaling(range: real, picoOffset: real, attenuation: real, adcMax: nat) {
    predicate Usable() { range > 0.0 && attenuation > 0.0 && adcMax > 0 }
    /** The input the comparator sees, as a fraction of full scale. */
    function Fraction(level: real): real
      requires Usable()
    {
      (level / attenuation + picoOffset) / range
    }
    /** Volts at the tip of one ADC step. */
    function Step(): real
      requires Usable()
    {
      range * attenuation / adcMax as real
    }
  }

  function Clamped(x: real, limit: real): real {
    if x < -limit then -limit else if x > limit then limit else x
  }

  /** The trigger level in counts, clamped to the span of the ADC. */
  function CountsOf(s: Scaling, level: real): int
    requires s.Usable()
  {
    Rounded(Clamped(s.Fraction(level) * s.adcMax as real, s.adcMax as real))
  }

  /** A count as volts at the tip, the way a record is converted. */
  function VoltsOf(s: Scaling, count: int): real
    requires s.Usable()
  {
    (count as real / s.adcMax as real * s.range - s.picoOffset) * s.attenuation
  }

  /** The two conversions undo each other up to rounding: in counts, a level and its image differ by the rounding alone. */
  lemma ErrorIsRounding(s: Scaling, level: real, count: int, error: real)
    requires s.Usable() && error == count as real - s.Fraction(level) * s.adcMax as real
    ensures VoltsOf(s, count) - level == error * s.Step()
  {
    var a, m, r, o := s.attenuation, s.adcMax as real, s.range, s.picoOffset;
    var f := s.Fraction(level);
    var x := level / a + o;
    assert level / a * a == level;
    assert f * r == x;
    Unscale(count as real, m, r, a);
    Unscale(f * m, m, r, a);
    assert f * m / m == f;
    assert (f * r - o) * a == level;
    Distributes(count as real, -(f * m), s.Step());
  }

  lemma Unscale(c: real, m: real, r: real, a: real)
    requires m != 0.0
    ensures c / m * r * a == c * (r * a / m)
  {
    var q := c / m;
    assert q * m == c;
    var t := r * a / m;
    assert t * m == r * a;
    assert q * (t * m) == (q * m) * t;
  }

  /** Rounding a clamped value stays within half of the value itself exactly this far beyond the span. */
  lemma RoundedWithinHalf(x: real, limit: nat)
    ensures
      var n := Rounded(Clamped(x, limit as real));
      && -(limit as int) <= n <= limit
      && ((-0.5 <= n as real - x <= 0.5) <==> (-(limit as real) - 0.5 <= x <= limit as real + 0.5))
  {}

  /** The counts handed to the unit stay inside the span of its ADC. */
  lemma CountsWithinSpan(s: Scaling, level: real)
    requires s.Usable()
    ensures -(s.adcMax as int) <= CountsOf(s, level) <= s.adcMax
  {
    RoundedWithinHalf(s.Fraction(level) * s.adcMax as real, s.adcMax);
  }

  lemma StepIsPositive(s: Scaling)
    requires s.Usable()
    ensures s.Step() > 0.0
  {
    assert s.range * s.attenuation > 0.0;
  }

  lemma ScaledWithin(d: real, step: real)
    requires step > 0.0
    ensures (-step / 2.0 <= d * step <= step / 2.0) <==> (-0.5 <= d <= 0.5)
  {
    Rescale(-0.5, d, step);
    Rescale(d, 0.5, step);
  }

  /**
    A trigger level comes back from counts to within half an ADC step exactly when it is inside
    the range, or beyond it by no more than that half step.
  */
  lemma LevelSurvivesExactly(s: Scaling, level: real)
    requires s.Usable()
    ensures
      var error := VoltsOf(s, CountsOf(s, level)) - level;
      var exact := s.Fraction(level) * s.adcMax as real;
      (-s.Step() / 2.0 <= error <= s.Step() / 2.0)
        <==> (-(s.adcMax as real) - 0.5 <= exact <= s.adcMax as real + 0.5)
  {
    var exact := s.Fraction(level) * s.adcMax as real;
    var error := CountsOf(s, level) as real - exact;
    ErrorIsRounding(s, level, CountsOf(s, level), error);
    RoundedWithinHalf(exact, s.adcMax);
    assert CountsOf(s, level) == Rounded(Clamped(exact, s.adcMax as real));
    StepIsPositive(s);
    hide Scaling.Step, Scaling.Fraction, VoltsOf, CountsOf, Rounded, Clamped;
    ScaledWithin(error, s.Step());
  }

  lemma WithinUnit(x: real, limit: real, y: real)
    requires y > 0.0 && -(limit * y) <= x <= limit * y
    ensures -limit <= x / y <= limit
  {
    QuotientBack(x, y);
    Rescale(x / y, limit, y);
    Rescale(-limit, x / y, y);
    assert -limit * y == -(limit * y);
  }

  lemma SumOverAttenuation(level: real, offsetTip: real, a: real)
    requires a > 0.0
    ensures level / a + -offsetTip / a == (level - offsetTip) / a
  {}

  lemma FractionWithinRange(s: Scaling, offsetTip: real, level: real)
    requires s.Usable() && s.picoOffset == -offsetTip / s.attenuation
    requires -(s.range * s.attenuation) <= level - offsetTip <= s.range * s.attenuation
    ensures -1.0 <= s.Fraction(level) <= 1.0
  {
    SumOverAttenuation(level, offsetTip, s.attenuation);
    WithinUnit(level - offsetTip, s.range, s.attenuation);
    WithinUnit((level - offsetTip) / s.attenuation, 1.0, s.range);
  }

  lemma UpperScaled(f: real, m: real)
    requires f <= 1.0 && m > 0.0
    ensures f * m <= m
  {
    Rescale(f, 1.0, m);
  }

  lemma UnitScaled(f: real, m: real)
    requires -1.0 <= f <= 1.0 && m > 0.0
    ensures -m <= f * m <= m
  {
    UpperScaled(f, m);
    UpperScaled(-f, m);
    assert -f * m == -(f * m);
  }

  lemma WithinSpan(f: real, m: real, exact: real)
    requires -1.0 <= f <= 1.0 && m > 0.0 && exact == f * m
    ensures -m - 0.5 <= exact <= m + 0.5
  {
    UnitScaled(f, m);
  }

  /** In particular every level within the channel's range around its offset survives. */
  lemma LevelInRangeSurvives(s: Scaling, offsetTip: real, level: real)
    requires s.Usable() && s.picoOffset == -offsetTip / s.attenuation
    requires -(s.range * s.attenuation) <= level - offsetTip <= s.range * s.attenuation
    ensures
      var error := VoltsOf(s, CountsOf(s, level)) - level;
      -s.Step() / 2.0 <= error <= s.Step() / 2.0
  {
    hide Scaling.Step, Scaling.Fraction, VoltsOf, CountsOf;
    FractionWithinRange(s, offsetTip, level);
    var exact := s.Fraction(level) * s.adcMax as real;
    WithinSpan(s.Fraction(level), s.adcMax as real, exact);
    LevelSurvivesExactly(s, level);
  }
}
