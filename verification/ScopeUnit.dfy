/**
  A PicoScope box: what scripts ask of it, its unit as the driver and the SDK know it, and the
  opening and closing of that unit (unit.cpp, `openedUnit`, `closeUnit`, `~Unit` and the generation
  counter), with the generator face, which shares it.

  The SDK answers as it likes: what a call returns is `answers` at that call. An exception is an
  outcome. Time, sleeping and the samples themselves are left out.
*/
module ScopeUnit {
  import opened Optional
  import Capture

  const CHANNELS: nat := 2
  const DEFAULT_BITS: nat := 8
  const OPENING_CALLS: nat := 5

  // ---------------------------------------------------------------- what is asked for

  datatype Channel = Channel(
    range: Option<real>, offset: Option<real>, probe: Option<real>,
    ac: Option<bool>, limited: Option<bool>, shown: Option<bool>)
  {
    function Attenuation(): real { if probe.Some? then probe.value else 1.0 }
    function Offset(): real { if offset.Some? then offset.value else 0.0 }
    predicate Shown() { shown != Some(false) }
    predicate Ac() { ac == Some(true) }
  }

  datatype Trigger = Trigger(source: Option<nat>, slope: Option<nat>, level: Option<real>, sweep: Option<bool>)

  datatype Window = Window(
    perDivision: Option<real>, position: Option<real>, reference: Option<nat>, points: Option<nat>)

  /** Everything a script has set up. */
  datatype Settings = Settings(bits: Option<nat>, channels: seq<Channel>, trigger: Trigger, window: Window)

  /** What a Setup leaves of a setting: the value it names, or the one before. */
  function Or<T>(named: Option<T>, was: Option<T>): Option<T> {
    if named.Some? then named else was
  }

  function ChannelSetUp(was: Channel, c: Channel): Channel {
    Channel(Or(c.range, was.range), Or(c.offset, was.offset), Or(c.probe, was.probe),
            Or(c.ac, was.ac), Or(c.limited, was.limited), Or(c.shown, was.shown))
  }

  function TriggerSetUp(was: Trigger, c: Trigger): Trigger {
    Trigger(Or(c.source, was.source), Or(c.slope, was.slope), Or(c.level, was.level), Or(c.sweep, was.sweep))
  }

  function WindowSetUp(was: Window, c: Window): Window {
    Window(Or(c.perDivision, was.perDivision), Or(c.position, was.position),
           Or(c.reference, was.reference), Or(c.points, was.points))
  }

  /** A setting that was named is as named, and one that was not is as it was. */
  predicate AsNamed<T(==)>(named: Option<T>, was: Option<T>, now: Option<T>) {
    (named.Some? ==> now == named) && (named.None? ==> now == was)
  }

  predicate ChannelAsNamed(c: Channel, was: Channel, now: Channel) {
    && AsNamed(c.range, was.range, now.range) && AsNamed(c.offset, was.offset, now.offset)
    && AsNamed(c.probe, was.probe, now.probe) && AsNamed(c.ac, was.ac, now.ac)
    && AsNamed(c.limited, was.limited, now.limited) && AsNamed(c.shown, was.shown, now.shown)
  }

  predicate TriggerAsNamed(c: Trigger, was: Trigger, now: Trigger) {
    && AsNamed(c.source, was.source, now.source) && AsNamed(c.slope, was.slope, now.slope)
    && AsNamed(c.level, was.level, now.level) && AsNamed(c.sweep, was.sweep, now.sweep)
  }

  predicate WindowAsNamed(c: Window, was: Window, now: Window) {
    && AsNamed(c.perDivision, was.perDivision, now.perDivision) && AsNamed(c.position, was.position, now.position)
    && AsNamed(c.reference, was.reference, now.reference) && AsNamed(c.points, was.points, now.points)
  }

  // ---------------------------------------------------------------- what the unit is told

  /** One conversion between volts at the tip and the ADC's counts (see Capture). */
  datatype Scale = Scale(range: real, offset: real, attenuation: real)

  /** What SetChannel last told the unit of a channel, if anything since it was opened. */
  datatype Told = Untold | Off(ac: bool) | On(scale: Scale, ac: bool)

  function ScaleTold(t: Told): Option<Scale> {
    if t.On? then Some(t.scale) else None
  }

  /** What a channel set up as `c` calls for: nothing without a range, and None beyond the largest range. */
  function CalledFor(c: Channel): Option<Told>
    requires c.Attenuation() > 0.0
  {
    if c.range.None? then Some(Untold)
    else
      var index := Capture.RangeFor(c.range.value / c.Attenuation());
      if index.None? then None
      else if c.Shown() then
        Some(On(Scale(Capture.RANGES[index.value], -c.Offset() / c.Attenuation(), c.Attenuation()), c.Ac()))
      else Some(Off(c.Ac()))
  }

  /** A voltage at the tip as a fraction of the ADC's span, on a unit told this scale. */
  function Fraction(scale: Scale, volts: real): real
    requires scale.range > 0.0 && scale.attenuation > 0.0
  {
    (volts / scale.attenuation + scale.offset) / scale.range
  }

  /** `centre` is read in the middle of the span, and what lies within `range` of it inside, up to the tolerance. */
  ghost predicate Covers(scale: Scale, centre: real, range: real) {
    && scale.range > 0.0 && scale.attenuation > 0.0 && Fraction(scale, centre) == 0.0
    && forall volts: real :: -range <= volts - centre <= range ==>
         -Capture.TOLERANCE <= Fraction(scale, volts) <= Capture.TOLERANCE
  }

  /** No smaller range of the unit would hold `range` at the tip. */
  predicate Smallest(scale: Scale, range: real) {
    && scale.range in Capture.RANGES
    && forall r :: r in Capture.RANGES && r < scale.range ==> r * Capture.TOLERANCE * scale.attenuation < range
  }

  /** What a unit told `t` does for a channel set up as `c`, whatever `t` was computed by. */
  ghost predicate Serves(t: Told, c: Channel) {
    var centre := if c.offset.Some? then c.offset.value else 0.0;
    match t
    case Untold => c.range.None?
    case Off(ac) => c.range.Some? && c.shown == Some(false) && (ac <==> c.ac == Some(true))
    case On(scale, ac) =>
      && c.range.Some? && c.shown != Some(false) && (ac <==> c.ac == Some(true))
      && scale.attenuation == (if c.probe.Some? then c.probe.value else 1.0)
      && Covers(scale, centre, c.range.value) && Smallest(scale, c.range.value)
  }

  /** What a channel calls for serves it: the voltages around its offset are those the unit digitises. */
  lemma CalledForServes(c: Channel)
    requires c.Attenuation() > 0.0 && CalledFor(c).Some?
    ensures Serves(CalledFor(c).value, c)
  {
    if CalledFor(c).value.On? {
      var scale := CalledFor(c).value.scale;
      var index := Capture.RangeFor(c.range.value / c.Attenuation()).value;
      RangeCovers(scale, c.Offset(), c.range.value);
      assert scale.range == Capture.RANGES[index];
      SmallestRange(scale, index, c.range.value);
    }
  }

  lemma RangeCovers(scale: Scale, centre: real, range: real)
    requires scale.range > 0.0 && scale.attenuation > 0.0 && scale.offset == -centre / scale.attenuation
    requires range / scale.attenuation <= scale.range * Capture.TOLERANCE
    ensures Covers(scale, centre, range)
  {
    var a := scale.attenuation;
    Capture.SumOverAttenuation(centre, centre, a);
    forall volts: real | -range <= volts - centre <= range
      ensures -Capture.TOLERANCE <= Fraction(scale, volts) <= Capture.TOLERANCE
    {
      var over, limit := volts - centre, range / a;
      Capture.SumOverAttenuation(volts, centre, a);
      Capture.QuotientBack(range, a);
      Capture.WithinUnit(over, limit, a);
      Capture.WithinUnit(over / a, Capture.TOLERANCE, scale.range);
    }
  }

  lemma SmallestRange(scale: Scale, index: nat, range: real)
    requires scale.attenuation > 0.0 && index < |Capture.RANGES| && scale.range == Capture.RANGES[index]
    requires forall i :: 0 <= i < index ==> Capture.RANGES[i] * Capture.TOLERANCE < range / scale.attenuation
    ensures Smallest(scale, range)
  {
    RangesIncrease();
    SmallerFall(Capture.RANGES, Capture.TOLERANCE, index, range, scale.attenuation);
  }

  lemma SmallerFall(ranges: seq<real>, tolerance: real, index: nat, range: real, a: real)
    requires a > 0.0 && index < |ranges| && forall i, j :: 0 <= i < j < |ranges| ==> ranges[i] < ranges[j]
    requires forall i :: 0 <= i < index ==> ranges[i] * tolerance < range / a
    ensures forall r :: r in ranges && r < ranges[index] ==> r * tolerance * a < range
  {
    forall r | r in ranges && r < ranges[index] ensures r * tolerance * a < range {
      var i :| 0 <= i < |ranges| && ranges[i] == r;
      BelowScaled(r * tolerance, range, a);
    }
  }

  lemma RangesIncrease()
    ensures forall i, j :: 0 <= i < j < |Capture.RANGES| ==> Capture.RANGES[i] < Capture.RANGES[j]
  {
    assert forall i :: 0 < i < |Capture.RANGES| ==> Capture.RANGES[i - 1] < Capture.RANGES[i];
  }

  lemma BelowScaled(x: real, range: real, a: real)
    requires a > 0.0 && x < range / a
    ensures x * a < range
  {
    Capture.QuotientBack(range, a);
    Capture.Rescale(range / a, x, a);
  }

  /** A trigger level within the unit's range of the channel's offset survives its way to counts and back. */
  lemma LevelServed(t: Told, c: Channel, adcMax: nat, level: real)
    requires Serves(t, c) && t.On? && adcMax > 0
    requires
      var centre := if c.offset.Some? then c.offset.value else 0.0;
      -(t.scale.range * t.scale.attenuation) <= level - centre <= t.scale.range * t.scale.attenuation
    ensures
      var s := Capture.Scaling(t.scale.range, t.scale.offset, t.scale.attenuation, adcMax);
      var error := Capture.VoltsOf(s, Capture.CountsOf(s, level)) - level;
      -s.Step() / 2.0 <= error <= s.Step() / 2.0
  {
    hide Serves, Covers, Fraction, Capture.VoltsOf, Capture.CountsOf, Capture.Scaling.Step;
    ServedCentre(t, c);
    var centre := if c.offset.Some? then c.offset.value else 0.0;
    Capture.LevelInRangeSurvives(
      Capture.Scaling(t.scale.range, t.scale.offset, t.scale.attenuation, adcMax), centre, level);
  }

  lemma ServedCentre(t: Told, c: Channel)
    requires Serves(t, c) && t.On?
    ensures t.scale.range > 0.0 && t.scale.attenuation > 0.0
    ensures t.scale.offset == -(if c.offset.Some? then c.offset.value else 0.0) / t.scale.attenuation
  {
    var centre := if c.offset.Some? then c.offset.value else 0.0;
    assert Fraction(t.scale, centre) == 0.0;
    hide Serves, Covers;
    ZeroSum(centre, t.scale.offset, t.scale.attenuation, t.scale.range);
  }

  lemma ZeroSum(centre: real, offset: real, a: real, range: real)
    requires a > 0.0 && range > 0.0 && (centre / a + offset) / range == 0.0
    ensures offset == -centre / a
  {
    Capture.QuotientBack(centre / a + offset, range);
    Capture.SumOverAttenuation(0.0, centre, a);
  }

  /** A channel as SetChannel was last answered OK for it; the unit was told accordingly. */
  function ToldBy(pushed: Option<Channel>): Told
    requires pushed.Some? ==> pushed.value.Attenuation() > 0.0
  {
    if pushed.None? then Untold
    else
      var t := CalledFor(pushed.value);
      if t.None? then Untold else t.value
  }

  /** The input an edge is looked for on, and the conversion that turned the trigger level into counts. */
  datatype Level = Level(source: nat, scale: Scale)

  /**
    A block run on the unit: under what, with what bandwidth filters, and which inputs were on AC
    already before it. One that only runs has no level.
  */
  datatype Block = Block(
    id: nat, trigger: Trigger, window: Window, level: Option<Level>, bits: nat,
    told: seq<Told>, filters: seq<Option<bool>>, wasAc: seq<bool>)

  /** The bandwidth filter is as a channel that is on or off asks, if it asks at all. */
  predicate Filtered(c: Channel, filter: Option<bool>) {
    c.range.Some? && c.limited.Some? ==> filter == c.limited
  }

  /** The block was run as `s` asks. */
  predicate TakenAs(b: Block, s: Settings)
    requires |b.told| == |b.filters| == |s.channels| == CHANNELS
    requires forall n :: 0 <= n < CHANNELS ==> s.channels[n].Attenuation() > 0.0
  {
    && b.trigger == s.trigger && b.window == s.window && (s.bits.Some? ==> b.bits == s.bits.value)
    && forall n :: 0 <= n < CHANNELS ==>
         CalledFor(s.channels[n]) == Some(b.told[n]) && Filtered(s.channels[n], b.filters[n])
  }

  /** No input the block digitised was switched to AC by that very block. */
  predicate Settled(b: Block)
    requires |b.told| == |b.wasAc| == CHANNELS
  {
    forall n :: 0 <= n < CHANNELS && b.told[n].On? && b.told[n].ac ==> b.wasAc[n]
  }

  /** `now` asks of a block what `then_`, as which it was run, asked: nothing that was asked for has changed. */
  predicate SameAsked(b: Block, then_: Settings, now: Settings)
    requires |b.filters| == |then_.channels| == |now.channels| == CHANNELS
    requires forall n :: 0 <= n < CHANNELS ==> then_.channels[n].Attenuation() > 0.0 && now.channels[n].Attenuation() > 0.0
  {
    && now.trigger == then_.trigger && now.window == then_.window && (now.bits.Some? ==> now.bits.value == b.bits)
    && forall n :: 0 <= n < CHANNELS ==>
         CalledFor(now.channels[n]) == CalledFor(then_.channels[n]) && Filtered(now.channels[n], b.filters[n])
  }

  /** Of a block run as one set of settings asked, another is in force exactly when it asks the same. */
  lemma TakenAsOthersExactly(b: Block, then_: Settings, now: Settings)
    requires |b.told| == |b.filters| == |then_.channels| == |now.channels| == CHANNELS
    requires forall n :: 0 <= n < CHANNELS ==> then_.channels[n].Attenuation() > 0.0 && now.channels[n].Attenuation() > 0.0
    requires TakenAs(b, then_)
    ensures TakenAs(b, now) <==> SameAsked(b, then_, now)
  {
    hide CalledFor, Filtered;
    assert forall n :: 0 <= n < CHANNELS ==> CalledFor(then_.channels[n]) == Some(b.told[n]);
  }

  // ---------------------------------------------------------------- the SDK's answers

  /** Every call from the `from`-th up to the `to`-th is answered OK, or yes. */
  predicate AllYes(answers: nat -> bool, from: nat, to: nat) {
    forall k: nat :: from <= k < to ==> answers(k)
  }

  /** How many SDK calls pushing a channel makes, from the `k`-th on. */
  function PushCalls(c: Channel, answers: nat -> bool, k: nat): nat
    requires c.Attenuation() > 0.0
  {
    if c.range.None? || CalledFor(c).None? then 0
    else if !answers(k) then 1
    else if !answers(k + 1) || c.limited.None? then 2
    else 3
  }

  /** SetChannel is answered OK: the offset is within the limits and the unit takes it. */
  predicate PushTells(c: Channel, answers: nat -> bool, k: nat)
    requires c.Attenuation() > 0.0
  {
    c.range.Some? && CalledFor(c).Some? && answers(k) && answers(k + 1)
  }

  predicate PushSucceeds(c: Channel, answers: nat -> bool, k: nat)
    requires c.Attenuation() > 0.0
  {
    c.range.None? || (PushTells(c, answers, k) && (c.limited.Some? ==> answers(k + 2)))
  }

  /** A channel as SetChannel, and the bandwidth filter as SetBandwidthFilter, was last answered OK for it. */
  datatype Pushed = Pushed(channel: Option<Channel>, limited: Option<bool>)

  /** What pushing a channel leaves of that: SetChannel may be answered OK and the filter then refused. */
  function PushedAfter(was: Pushed, c: Channel, answers: nat -> bool, k: nat): Pushed
    requires c.Attenuation() > 0.0
  {
    if !PushTells(c, answers, k) then was
    else Pushed(Some(c), if c.limited.Some? && answers(k + 2) then c.limited else was.limited)
  }

  /** And of the last push that succeeded whole, by which the face converts. */
  function WholeAfter(was: Option<Channel>, c: Channel, answers: nat -> bool, k: nat): Option<Channel>
    requires c.Attenuation() > 0.0
  {
    if c.range.None? then None else if PushSucceeds(c, answers, k) then Some(c) else was
  }

  /** OpenUnit answered a power status, giving a handle out, and ChangePowerSource then refused it. */
  predicate Abandons(answers: nat -> bool, k: nat) {
    !answers(k) && answers(k + 1) && !answers(k + 2)
  }

  // ---------------------------------------------------------------- the unit and its box

  /** An open unit: the driver's record of it, and what its hardware has been told. */
  class Unit {
    const handle: nat
    const generation: nat
    var bits: nat
    var told: seq<Told>
    var filters: seq<Option<bool>>       // the bandwidth filters last set
    var onAc: seq<bool>                  // switched so by the last block
    var block: Option<Block>             // the last one run
    var target: Option<nat>              // whose buffers the SDK fills

    constructor (handle: nat, generation: nat, bits: nat)
      ensures this.handle == handle && this.generation == generation && this.bits == bits
      ensures Untouched()
    {
      this.handle, this.generation, this.bits := handle, generation, bits;
      told, filters, onAc := [Untold, Untold], [None, None], [false, false];
      block, target := None, None;
    }

    ghost predicate Shaped()
      reads `told, `filters, `onAc
    {
      |told| == |filters| == |onAc| == CHANNELS
    }

    ghost predicate Untouched()
      reads `told, `filters, `onAc, `block, `target
    {
      && told == [Untold, Untold] && filters == [None, None] && onAc == [false, false]
      && block.None? && target.None?
    }

    /** No channel waits to be switched to AC by the next block. */
    ghost predicate AcApplied()
      reads `told, `filters, `onAc
      requires Shaped()
    {
      forall n :: 0 <= n < CHANNELS && told[n].On? && told[n].ac ==> onAc[n]
    }

    /** RunBlock answered OK: what SetChannel said of coupling takes effect with it. */
    method Run(id: nat, trigger: Trigger, window: Window, level: Option<Level>)
      requires Shaped()
      modifies `block, `onAc
      ensures Shaped() && AcApplied()
      ensures block == Some(Block(id, trigger, window, level, bits, told, filters, old(onAc)))
      ensures Settled(block.value) <==> old(AcApplied())
    {
      block := Some(Block(id, trigger, window, level, bits, told, filters, onAc));
      onAc := [if told[0].Untold? then onAc[0] else told[0].ac, if told[1].Untold? then onAc[1] else told[1].ac];
    }
  }

  /** A box's hardware, shared by its faces. */
  class Box {
    const answers: nat -> bool
    const patience: nat                  // how often a wait polls after its first time
    var calls: nat
    var handles: set<nat>                // open in the SDK
    var generations: nat                 // nextGeneration's counter
    var blocks: nat                      // blocks run so far
    var unit: Unit?                      // Hardware.Open
    ghost var opens: set<nat>            // which calls were OpenUnit

    constructor (answers: nat -> bool, patience: nat)
      ensures Valid() && unit == null && generations == 0 && calls == 0 && opens == {}
      ensures this.answers == answers && this.patience == patience
    {
      this.answers, this.patience := answers, patience;
      calls, handles, generations, blocks, unit := 0, {}, 0, 0, null;
      opens := {};
    }

    /** Handles given out with a power status that was then not accepted: nobody closes them. */
    ghost function Abandoned(): (abandoned: set<nat>)
      reads `opens
      ensures forall k :: k in abandoned <==> k in opens && Abandons(answers, k)
    {
      set k | k in opens && Abandons(answers, k)
    }

    /** The SDK's open handles are the abandoned ones and that of the one unit the box knows. */
    ghost predicate Valid()
      reads this, unit
    {
      && handles == Abandoned() + (if unit == null then {} else {unit.handle})
      && (forall k :: k in opens ==> k < calls)
      && (unit != null ==>
            && 0 < unit.generation <= generations && unit.Shaped()
            && unit.handle in opens && unit.handle !in Abandoned())
    }

    /** One SDK call: whether it answered OK (or yes). */
    method Ask() returns (ok: bool)
      modifies this`calls
      ensures ok == answers(old(calls)) && calls == old(calls) + 1
    {
      ok := answers(calls);
      calls := calls + 1;
    }

    /** The checks between opening a unit and keeping it: who it is, the model, its ADC's span. */
    method Identified() returns (ok: bool)
      modifies this`calls
      ensures old(calls) < calls <= old(calls) + 4 && ok == AllYes(answers, old(calls), calls)
      ensures ok ==> calls == old(calls) + 4
    {
      ok := true;
      for n := 0 to 4
        invariant calls == old(calls) + n && ok && AllYes(answers, old(calls), calls)
      {
        ok := Ask();
        if !ok {
          return;
        }
      }
    }

    /**
      OpenUnit: on USB power, or on a USB 2.0 port, it gives a handle out and answers a status that
      ChangePowerSource has to accept. One it does not accept is forgotten, and stays open.
    */
    method Opened() returns (ok: bool, handle: nat)
      requires Valid() && unit == null
      modifies this`calls, this`handles, this`opens
      ensures old(calls) < calls <= old(calls) + 3 && handle == old(calls) && opens == old(opens) + {handle}
      ensures ok ==> !Abandons(answers, handle)
      ensures handles == Abandoned() + if ok then {handle} else {}
      ensures Abandoned() == old(Abandoned()) + if Abandons(answers, handle) then {handle} else {}
      ensures !ok ==> !AllYes(answers, old(calls), calls)
      ensures answers(old(calls)) ==> ok && calls == old(calls) + 1
      ensures Abandons(answers, old(calls)) ==> !ok && calls == old(calls) + 3
    {
      handle := calls;
      opens := opens + {handle};
      ok := Ask();
      var powered := false;
      if !ok {
        powered := Ask();
        if powered {
          ok := Ask();
        }
      }
      if ok || powered {
        handles := handles + {handle};
      }
    }

    /** The box's unit, opened and checked if it is not; a failure is an answer that was not OK. */
    method OpenedUnit(bits: Option<nat>) returns (ok: bool)
      requires Valid()
      modifies this`calls, this`handles, this`generations, this`unit, this`opens
      ensures Valid() && ok == (unit != null) && calls >= old(calls)
      ensures old(unit) != null ==>
                unit == old(unit) && generations == old(generations) && calls == old(calls) && opens == old(opens)
      ensures old(unit) == null ==>
                opens == old(opens) + {old(calls)}
                && Abandoned() == old(Abandoned()) + if Abandons(answers, old(calls)) then {old(calls)} else {}
      ensures old(unit) == null && Abandons(answers, old(calls)) ==> !ok && calls == old(calls) + 3
      ensures old(unit) == null && ok ==>
                && fresh(unit) && unit.generation == generations == old(generations) + 1
                && unit.bits == (if bits.Some? then bits.value else DEFAULT_BITS) && unit.Untouched()
      ensures !ok ==> handles == Abandoned() && generations == old(generations) && !AllYes(answers, old(calls), calls)
      ensures old(unit) == null && AllYes(answers, old(calls), old(calls) + OPENING_CALLS) ==>
                ok && calls == old(calls) + OPENING_CALLS
    {
      if unit != null {
        return true;
      }
      var handle;
      ok, handle := Opened();
      if !ok {
        return;
      }
      hide Abandons;
      ok := Identified();
      if !ok {
        // ~Unit
        handles := handles - {handle};
        return;
      }
      generations := generations + 1;
      unit := new Unit(handle, generations, if bits.Some? then bits.value else DEFAULT_BITS);
    }

    method CloseUnit()
      requires Valid()
      modifies this`handles, this`unit
      ensures Valid() && unit == null && handles == Abandoned()
    {
      if unit != null {
        handles := handles - {unit.handle};
        unit := null;
      }
    }

    /** Ready, not ready in time, or IsReady failed. */
    method Poll() returns (ready: Option<bool>)
      modifies this`calls
      ensures calls > old(calls)
      ensures ready != Some(true) ==> !AllYes(answers, old(calls), calls)
    {
      for n := 0 to patience + 1
        invariant calls >= old(calls) && (n > 0 ==> calls > old(calls) && !AllYes(answers, old(calls), calls))
      {
        var ok := Ask();
        if !ok {
          return None;
        }
        var done := Ask();
        if done {
          return Some(true);
        }
      }
      return Some(false);
    }
  }

  // ---------------------------------------------------------------- the other face

  /** It opens and closes the unit, and never touches a channel or a block. */
  class WaveformGenerator {
    const box: Box

    constructor (box: Box)
      ensures this.box == box
    {
      this.box := box;
    }

    /** What opening the unit for a call of this face leaves of the box. */
    twostate predicate OnlyOpens()
      reads box, box.unit
    {
      && box.Valid() && box.generations >= old(box.generations) && box.calls >= old(box.calls)
      && (old(box.unit) != null ==> box.unit == old(box.unit))
      && (old(box.unit) == null && box.unit != null ==>
            fresh(box.unit) && box.unit.generation > old(box.generations) && box.unit.Untouched())
    }

    /** Putting a waveform on, or `removeOutput`. */
    method Drive() returns (ok: bool)
      requires box.Valid()
      modifies box`calls, box`handles, box`generations, box`unit, box`opens
      ensures OnlyOpens() && (!ok ==> !AllYes(box.answers, old(box.calls), box.calls))
    {
      ok := box.OpenedUnit(None);
      if ok {
        ok := box.Ask();
      }
    }

    method Identity() returns (ok: bool)
      requires box.Valid()
      modifies box`calls, box`handles, box`generations, box`unit, box`opens
      ensures OnlyOpens() && ok == (box.unit != null)
    {
      ok := box.OpenedUnit(None);
    }

    /** Silences a unit that is open, and opens none. */
    method Safe()
      requires box.Valid()
      modifies box`calls
      ensures box.Valid() && box.calls >= old(box.calls)
    {
      if box.unit != null {
        var ok := box.Ask();
      }
    }

    method CloseSession()
      requires box.Valid()
      modifies box`handles, box`unit
      ensures box.Valid() && box.unit == null
    {
      box.CloseUnit();
    }

    /** Another library for the box: the open unit is dropped. */
    method UseApi()
      requires box.Valid()
      modifies box`handles, box`unit
      ensures box.Valid() && box.unit == null
    {
      box.CloseUnit();
    }
  }
}
