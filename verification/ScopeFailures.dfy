/**
  Particular histories of a PicoScope box (oscilloscope.cpp, unit.cpp), after which the obvious
  reading of the code fails. The conditions they fail are in ScopeSession and ScopeUnit.
*/
module ScopeFailures {
  import opened Optional
  import opened ScopeUnit
  import opened ScopeSession
  import Capture

  const VOLT: Scale := Scale(1.0, 0.0, 1.0)
  const FIVE_VOLTS: Scale := Scale(5.0, 0.0, 1.0)

  function Volts(range: real): Channel { BLANK.(range := Some(range)) }

  function Limited(range: real): Channel { Volts(range).(limited := Some(true)) }

  function OnAc(range: real): Channel { Volts(range).(ac := Some(true)) }

  function SwitchedOff(range: real): Channel { Volts(range).(shown := Some(false)) }

  function Span(seconds: real): Window { Window(Some(seconds), None, None, None) }

  function Asked(c: Channel, seconds: real): Settings {
    Settings(None, [c, BLANK], Trigger(None, None, None, None), Span(seconds))
  }

  lemma RangesOf()
    ensures CalledFor(Volts(1.0)) == CalledFor(Limited(1.0)) == Some(On(VOLT, false))
    ensures CalledFor(Volts(5.0)) == CalledFor(Limited(5.0)) == Some(On(FIVE_VOLTS, false))
    ensures CalledFor(OnAc(1.0)) == Some(On(VOLT, true))
    ensures CalledFor(SwitchedOff(1.0)) == Some(Off(false))
    ensures CalledFor(BLANK) == Some(Untold)
  {
    assert Capture.RangeFor(1.0) == Some(6) && Capture.RangeFor(5.0) == Some(8) by {
      RangeIs(1.0, 6);
      RangeIs(5.0, 8);
    }
  }

  lemma RangeIs(volts: real, index: nat)
    requires index < |Capture.RANGES| && volts <= Capture.RANGES[index] * Capture.TOLERANCE
    requires forall i :: 0 <= i < index ==> Capture.RANGES[i] * Capture.TOLERANCE < volts
    ensures Capture.RangeFor(volts) == Some(index)
  {}

  /** These settings ask for no more than the largest range. */
  lemma InRange(c: Channel, seconds: real)
    requires c.Attenuation() > 0.0 && CalledFor(c).Some?
    ensures Positive(Asked(c, seconds)) && !OutOfRange(Asked(c, seconds))
  {
    assert CalledFor(BLANK) == Some(Untold);
  }

  // ---------------------------------------------------------------- a scope to start from

  ghost predicate AnswersFrom(box: Box, from: nat)
    reads box
  {
    forall k: nat :: from <= k ==> box.answers(k)
  }

  /** A live scope on a box of its own, whose unit it has set up. */
  ghost predicate Live(scope: Oscilloscope)
    reads scope, scope.box, scope.box.unit
  {
    scope.Valid() && scope.Current() && !scope.simulated && AnswersFrom(scope.box, scope.box.calls)
  }

  /** The opening, the setting up of both channels, and the one channel again. */
  function ReadyCalls(c: Channel): nat { OPENING_CALLS + 2 * FullPush(c) }

  lemma OneChannelCalls(c: Channel)
    requires c.range.Some?
    ensures forall s: Settings :: s.channels == [c, BLANK] ==> FreshSetUp(s, 0) == ReadyCalls(c)
  {
    assert [c, BLANK][..1] == [c] && [c][..0] == [];
    assert SetUpCalls([c]) == FullPush(c);
    assert SetUpCalls([c, BLANK]) == FullPush(c);
  }

  /** A scope with one channel and a timebase set up, every call so far answered OK. */
  method ReadyScope(answers: nat -> bool, c: Channel) returns (scope: Oscilloscope)
    requires AllYes(answers, 0, ReadyCalls(c)) && c.range.Some? && c.range.value > 0.0 && c.probe.None?
    requires CalledFor(c).Some?
    ensures scope.Valid() && scope.Current() && !scope.simulated && scope.settings == Asked(c, 0.001)
    ensures fresh(scope) && fresh(scope.box) && fresh(scope.box.unit)
    ensures scope.box.answers == answers && scope.box.calls == ReadyCalls(c)
    ensures scope.books.stale == {} && !scope.books.staleBits && scope.couplingChanged == c.Ac()
  {
    hide CalledFor, InStep, Oscilloscope.InFlight, Oscilloscope.StillSo, Oscilloscope.PushedOn, SentWell, Converts,
         AllYes, FreshSetUp, ReadyCalls, OutOfRange, Oscilloscope.Valid;
    InRange(c, 0.001);
    NoWindow(c);
    OneChannelCalls(c);
    var box := new Box(answers, 0);
    scope := new Oscilloscope(box, false);
    assert ChannelSetUp(BLANK, c) == c;
    assert [BLANK, BLANK][0 := c] == [c, BLANK];
    var r := scope.ConfigureChannel(0, c);
    r := scope.ConfigureTimebase(Span(0.001));
  }

  lemma NoWindow(c: Channel)
    requires c.Attenuation() > 0.0 && CalledFor(c).Some?
    ensures
      var s := Settings(None, [c, BLANK], Trigger(None, None, None, None), Window(None, None, None, None));
      Positive(s) && !OutOfRange(s)
  {
    assert CalledFor(BLANK) == Some(Untold);
  }

  /** What is known of a channel whose last Setup did not throw. */
  lemma ReadyChannel(scope: Oscilloscope, n: nat)
    requires scope.Valid() && scope.Current() && n < CHANNELS && n !in scope.books.stale
    requires CalledFor(scope.settings.channels[n]).Some?
    ensures |scope.books.pushed| == |scope.applied| == CHANNELS && WellKept(scope.books)
    ensures ToldBy(scope.books.pushed[n].channel) == CalledFor(scope.settings.channels[n]).value
    ensures scope.applied[n] == ScaleTold(CalledFor(scope.settings.channels[n]).value)
    ensures Filtered(scope.settings.channels[n], scope.books.pushed[n].limited)
  {
    hide CalledFor, ToldBy, Oscilloscope.InFlight, Oscilloscope.StillSo, RecordOf, Converts, Filtered;
    assert InStepAt(scope.books.pushed[n], scope.settings.channels[n], scope.applied[n]);
  }

  lemma ReadsBy(scope: Oscilloscope, n: nat)
    requires scope.Valid() && n < CHANNELS
    ensures WellKept(scope.books) && |scope.books.whole| == |scope.books.pushed| == |scope.applied| == CHANNELS
    ensures scope.applied[n] == ScaleTold(ToldBy(scope.books.whole[n]))
  {}

  /** Armed with every call answered OK, on a unit already set up. */
  method ArmNow(scope: Oscilloscope)
    requires Live(scope) && !OutOfRange(scope.settings) && |scope.applied| == CHANNELS && scope.applied[0].Some?
    requires scope.settings.window.perDivision.Some? && scope.settings.trigger.source.None?
    modifies scope.Objects()
    ensures Live(scope) && scope.settings == old(scope.settings) && scope.books == old(scope.books)
    ensures scope.applied == old(scope.applied) && scope.box.unit == old(scope.box.unit)
    ensures scope.armed && scope.OwnBlock() && !scope.couplingChanged && !scope.setUp && !scope.measured
    ensures Settled(scope.armedBlock.value) <==> old(scope.SettlesFirst())
  {
    hide CalledFor, ToldBy, InStep, SentWell, Converts, BlockOf, LevelOf, OutOfRange, Oscilloscope.InFlight,
         Oscilloscope.Valid, Settled, Oscilloscope.SettlesFirst, Oscilloscope.OwnBlock, Fits;
    var r := scope.ArmSingle();
  }

  /** A ready scope, armed, every call answered OK. */
  method ArmedScope(c: Channel) returns (scope: Oscilloscope)
    requires c == Volts(1.0) || c == OnAc(1.0)
    ensures Live(scope) && fresh(scope) && fresh(scope.box) && fresh(scope.box.unit)
    ensures scope.armed && !scope.couplingChanged && scope.books.stale == {} && scope.settings == Asked(c, 0.001)
    ensures scope.applied == [Some(VOLT), None]
    ensures scope.pending.Some? && scope.pending.value.enabled == [true, false]
    ensures scope.armedBlock.Some? && scope.BlockFilled(scope.pending.value.id) == scope.armedBlock
    ensures
      var b := scope.armedBlock.value;
      && |b.told| == |b.filters| == |b.wasAc| == CHANNELS && b.window == Span(0.001) && b.told[0] == On(VOLT, c.Ac())
      && (c.Ac() ==> Settled(b))
  {
    RangesOf();
    hide CalledFor, ToldBy, InStep, SentWell, Converts, Settled, LevelOf, OutOfRange, Oscilloscope.Valid;
    InRange(c, 0.001);
    scope := ReadyScope(k => true, c);
    ReadyChannel(scope, 0);
    ReadyChannel(scope, 1);
    ArmNow(scope);
  }

  /** Awaited with every call answered OK: what is in flight is taken for a record, unless a scale is missing. */
  method AwaitNow(scope: Oscilloscope) returns (r: Outcome)
    requires scope.Valid() && !scope.simulated && scope.armed && scope.pending.Some?
    requires !OutOfRange(scope.settings) && AnswersFrom(scope.box, scope.box.calls)
    modifies scope.Objects()
    ensures scope.Valid() && scope.Current() && scope.settings == old(scope.settings)
    ensures |scope.applied| == |old(scope.pending).value.enabled| == CHANNELS
    ensures
      var p := old(scope.pending).value;
      if ScaleLost(p.enabled, scope.applied) then r.Undefined? && scope.held.None?
      else
        r.Done? && scope.completed
        && scope.held == Some(Record(old(scope.BlockFilled(p.id)), ScalesOf(p.enabled, scope.applied)))
    ensures if old(scope.Current()) then scope.applied == old(scope.applied) && scope.books == old(scope.books)
            else scope.books.stale == {}
    ensures scope.heldOwn == old(scope.Current() && !scope.measured) && scope.heldSetUp == old(scope.setUp)
  {
    hide CalledFor, InStep, SentWell, Converts, OutOfRange, ScaleLost, ScalesOf, Oscilloscope.Valid, TakenAs,
         SameAsked, ReadAsRun, StillRead, LevelAsTold, Oscilloscope.InFlight;
    scope.IdleOrArmed();
    var done;
    r, done := scope.AwaitAcquisition(true);
  }

  // ---------------------------------------------------------------- a Setup that throws

  /** Every call of a push is answered OK but its last: SetChannel, or the filter where there is one to set. */
  lemma PushRefused(c: Channel, answers: nat -> bool, k: nat, was: Pushed, whole: Option<Channel>)
    requires c.range.Some? && c.Attenuation() > 0.0 && CalledFor(c).Some?
    requires forall j: nat :: answers(j) <==> j != k + FullPush(c) - 1
    ensures !PushSucceeds(c, answers, k) && PushCalls(c, answers, k) == FullPush(c)
    ensures WholeAfter(whole, c, answers, k) == whole
    ensures PushedAfter(was, c, answers, k) == if c.limited.Some? then Pushed(Some(c), was.limited) else was
  {
    hide CalledFor;
  }

  lemma SameCalls(was: Channel, c: Channel)
    requires was.range.Some? && c == was.(range := c.range) && c.range.Some?
    ensures FullPush(was) == FullPush(c) > 0 && ChannelSetUp(was, c) == c
  {}

  /** A ready scope whose second Setup, of another range, had its last call refused. */
  method RefusedScope(was: Channel, c: Channel) returns (scope: Oscilloscope)
    requires was.range == Some(1.0) && was.probe.None? && CalledFor(was) == Some(On(VOLT, false))
    requires c == was.(range := Some(5.0)) && CalledFor(c) == Some(On(FIVE_VOLTS, false))
    ensures Live(scope) && fresh(scope) && fresh(scope.box) && fresh(scope.box.unit)
    ensures scope.books.stale == {0} && !scope.books.staleBits && scope.settings == Asked(c, 0.001)
    ensures |scope.applied| == |scope.books.pushed| == CHANNELS && WellKept(scope.books)
    ensures scope.applied[0] == Some(VOLT)
    ensures ToldBy(scope.books.pushed[0].channel) == On(if c.limited.Some? then FIVE_VOLTS else VOLT, false)
    ensures Filtered(c, scope.books.pushed[0].limited)
  {
    hide CalledFor, InStep, Oscilloscope.InFlight, Oscilloscope.StillSo, RecordOf, SentWell, Converts, PushSucceeds,
         PushCalls, PushedAfter, WholeAfter, FullPush, ChannelSetUp, Oscilloscope.Valid, AllYes, OutOfRange;
    var refused := ReadyCalls(was) + FullPush(was) - 1;
    SameCalls(was, c);
    var answers := k => k != refused;
    assert AllYes(answers, 0, ReadyCalls(was)) by { AllBefore(answers, ReadyCalls(was)); }
    scope := ReadyScope(answers, was);
    ReadyChannel(scope, 0);
    ReadsBy(scope, 0);
    PushRefused(c, answers, scope.box.calls, scope.books.pushed[0], scope.books.whole[0]);
    assert [was, BLANK][0 := c] == [c, BLANK];
    var r := scope.ConfigureChannel(0, c);
    ReadsBy(scope, 0);
  }

  lemma AllBefore(answers: nat -> bool, to: nat)
    requires forall k: nat :: k < to ==> answers(k)
    ensures AllYes(answers, 0, to)
  {}

  /** Armed and awaited with nothing in between. */
  method CaptureNow(scope: Oscilloscope)
    requires Live(scope) && !OutOfRange(scope.settings) && |scope.applied| == CHANNELS && scope.applied[0].Some?
    requires scope.settings.window.perDivision.Some? && scope.settings.trigger.source.None?
    modifies scope.Objects()
    ensures scope.Valid() && scope.settings == old(scope.settings) && scope.books == old(scope.books)
    ensures scope.held.Some? && RecordOf(scope.held.value, scope.settings, scope.books)
    ensures scope.applied == old(scope.applied) && scope.held.value.scales == scope.applied
    ensures scope.held.value.block.value.level == LevelOf(scope.settings.trigger, scope.applied)
  {
    hide CalledFor, ToldBy, InStep, SentWell, Converts, BlockOf, LevelOf, OutOfRange, Settled;
    ArmNow(scope);
    var r := AwaitNow(scope);
  }

  /**
    A Setup that threw leaves its request behind: the next capture, awaited with nothing in between,
    is of what the unit was told before. Here a record set up for 5 V is taken, and read, at 1 V.
  */
  method FailedSetUp() returns (scope: Oscilloscope)
    ensures scope.Valid() && scope.held.Some? && RecordOf(scope.held.value, scope.settings, scope.books)
    ensures scope.settings.channels[0] == Volts(5.0)
    ensures scope.held.value.block.value.told[0] == On(VOLT, false) && scope.held.value.scales[0] == Some(VOLT)
    ensures !TakenAs(scope.held.value.block.value, scope.settings)
  {
    RangesOf();
    hide CalledFor, ToldBy, InStep, SentWell, Converts, OutOfRange, Oscilloscope.Valid;
    InRange(Volts(5.0), 0.001);
    scope := RefusedScope(Volts(1.0), Volts(5.0));
    CaptureNow(scope);
    assert CalledFor(scope.settings.channels[0]) != Some(scope.held.value.block.value.told[0]);
  }

  /**
    SetChannel answered OK and the bandwidth filter then refused: the unit runs the block as it is set
    up, at 5 V, and the face still sets the trigger's level and reads the samples at 1 V.
  */
  method FilterRefused() returns (scope: Oscilloscope)
    ensures scope.Valid() && scope.held.Some? && RecordOf(scope.held.value, scope.settings, scope.books)
    ensures TakenAs(scope.held.value.block.value, scope.settings) && scope.settings.channels[0] == Limited(5.0)
    ensures scope.held.value.block.value.told[0] == On(FIVE_VOLTS, false)
    ensures scope.held.value.scales[0] == Some(VOLT) && scope.held.value.block.value.level == Some(Level(0, VOLT))
    ensures !ReadAsRun(scope.held.value)
  {
    RangesOf();
    hide CalledFor, ToldBy, InStep, SentWell, Converts, OutOfRange, Oscilloscope.Valid, Filtered;
    InRange(Limited(5.0), 0.001);
    scope := RefusedScope(Limited(1.0), Limited(5.0));
    CaptureNow(scope);
    RecordTakenExactly(scope.held.value, scope.settings, scope.books);
  }

  // ---------------------------------------------------------------- a call between Arm and Await

  /**
    A channel switched off between Arm and Await has samples in flight and no scale to read them by:
    the Await reads a scale that is not there.
  */
  method SwitchedOffBetween() returns (scope: Oscilloscope, r: Outcome)
    ensures scope.Valid() && r == Undefined && scope.settings == Asked(SwitchedOff(1.0), 0.001)
  {
    hide CalledFor, ToldBy, InStep, SentWell, Converts, OutOfRange, Oscilloscope.Valid, Oscilloscope.BlockFilled,
         AllYes;
    RangesOf();
    InRange(SwitchedOff(1.0), 0.001);
    scope := ArmedScope(Volts(1.0));
    var off := BLANK.(shown := Some(false));
    assert ChannelSetUp(Volts(1.0), off) == SwitchedOff(1.0);
    assert [Volts(1.0), BLANK][0 := SwitchedOff(1.0)] == [SwitchedOff(1.0), BLANK];
    r := scope.ConfigureChannel(0, off);
    ReadyChannel(scope, 0);
    r := AwaitNow(scope);
  }

  /**
    A Setup between Arm and Await drops the record in hand but not the block in flight: the Await
    completes with a record of a window no longer asked for.
  */
  method SetUpBetween() returns (scope: Oscilloscope)
    ensures scope.Valid() && scope.held.Some? && scope.held.value.Record? && scope.held.value.block.Some?
    ensures scope.held.value.block.value.window == Span(0.001) && scope.settings == Asked(Volts(1.0), 0.002)
    ensures |scope.held.value.block.value.told| == |scope.held.value.block.value.filters| == CHANNELS
    ensures !TakenAs(scope.held.value.block.value, scope.settings)
  {
    hide CalledFor, ToldBy, InStep, SentWell, Converts, OutOfRange, Oscilloscope.Valid, AllYes;
    RangesOf();
    InRange(Volts(1.0), 0.002);
    scope := ArmedScope(Volts(1.0));
    var r := scope.ConfigureTimebase(Span(0.002));
    r := AwaitNow(scope);
  }

  /** A range set up in between is what the samples taken before it are read by: 1 V of input reads as 5 V. */
  method RangeBetween() returns (scope: Oscilloscope)
    ensures scope.Valid() && scope.held.Some? && scope.held.value.Record? && scope.held.value.block.Some?
    ensures |scope.held.value.block.value.told| == |scope.held.value.scales| == CHANNELS && scope.books.stale == {}
    ensures scope.held.value.block.value.told[0] == On(VOLT, false)
    ensures scope.held.value.scales[0] == Some(FIVE_VOLTS)
  {
    hide CalledFor, ToldBy, InStep, SentWell, Converts, OutOfRange, Oscilloscope.Valid;
    RangesOf();
    InRange(Volts(5.0), 0.001);
    scope := ArmedScope(Volts(1.0));
    assert ChannelSetUp(Volts(1.0), Volts(5.0)) == Volts(5.0);
    assert [Volts(1.0), BLANK][0 := Volts(5.0)] == [Volts(5.0), BLANK];
    var r := scope.ConfigureChannel(0, Volts(5.0));
    ReadyChannel(scope, 0);
    r := AwaitNow(scope);
  }

  /**
    A Measure in between registers its own buffers, which are gone when the Await completes: what that
    takes for a record is of no block of its own.
  */
  method MeasuredBetween() returns (scope: Oscilloscope)
    ensures scope.Valid() && scope.completed && scope.held.Some? && scope.held.value.Record?
    ensures scope.held.value.block.None?
  {
    hide CalledFor, ToldBy, InStep, SentWell, Converts, OutOfRange, Oscilloscope.Valid, RecordOf, ReadAsRun, TakenAs;
    RangesOf();
    InRange(Volts(1.0), 0.001);
    scope := ArmedScope(Volts(1.0));
    NothingHeld(scope);
    var r, record := scope.Measure();
    r := AwaitNow(scope);
  }

  lemma NothingHeld(scope: Oscilloscope)
    requires scope.Valid() && scope.armed
    ensures scope.held.None?
  {}

  /** So is one awaited on a unit that was opened since, the other face having closed the one it was armed on. */
  method ClosedBetween() returns (scope: Oscilloscope)
    ensures scope.Valid() && scope.completed && scope.held.Some? && scope.held.value.Record?
    ensures scope.held.value.block.None?
  {
    hide CalledFor, ToldBy, InStep, Oscilloscope.InFlight, Oscilloscope.StillSo, RecordOf, SentWell, Converts,
         OutOfRange;
    RangesOf();
    InRange(Volts(1.0), 0.001);
    scope := ArmedScope(Volts(1.0));
    var wave := new WaveformGenerator(scope.box);
    wave.CloseSession();
    var r := AwaitNow(scope);
    ReadyChannel(scope, 0);
  }

  // ---------------------------------------------------------------- opening and reopening

  /**
    Settling is asked for by the Setup that switches to AC, not by a unit that has yet to be: reopened,
    it is switched again, and the first block that is kept is the one that switches it.
  */
  method ReopenedOnAc() returns (scope: Oscilloscope, ghost first: Block, ghost second: Block)
    ensures scope.Valid() && scope.Current() && scope.armed && scope.armedBlock == Some(second)
    ensures |first.told| == |first.wasAc| == |second.told| == |second.wasAc| == CHANNELS
    ensures Settled(first) && !Settled(second)
  {
    hide CalledFor, ToldBy, InStep, Oscilloscope.InFlight, Oscilloscope.StillSo, RecordOf, SentWell, Converts,
         OutOfRange, Settled, BlockOf;
    RangesOf();
    InRange(OnAc(1.0), 0.001);
    scope := ArmedScope(OnAc(1.0));
    first := scope.armedBlock.value;
    scope.CloseSession();
    assert CalledFor(scope.settings.channels[0]) == Some(On(VOLT, true));
    assert !scope.SettlesFirst();
    var r := scope.ArmSingle();
    if scope.Current() && 0 !in scope.books.stale {
      ReadyChannel(scope, 0);
    }
    second := scope.armedBlock.value;
  }

  /**
    A box on USB power alone whose power status is then refused: the handle it gave out is forgotten,
    and the next call opens another beside it.
  */
  method HandleAbandoned() returns (box: Box)
    ensures box.Valid() && box.unit != null && box.Abandoned() == {0} && |box.handles| == 2
  {
    box := new Box(k => k != 0 && k != 2, 0);
    var ok := box.OpenedUnit(None);
    ok := box.OpenedUnit(None);
  }
}
