/** Whole histories of a PicoScope box (oscilloscope.cpp, unit.cpp): what any sequence of calls to its faces keeps. */
module ScopeCalls {
  import opened Optional
  import opened ScopeUnit
  import opened ScopeSession
  import Capture

  // ---------------------------------------------------------------- any sequence of calls

  datatype Call =
    | SetChannel(n: nat, channel: Channel) | SetTrigger(trigger: Trigger) | SetWindow(window: Window)
    | SetBits(bits: Option<nat>) | Arm | Await(completes: bool) | Read | CloseScope | SafeScope | IdentifyScope
    | UseApiOnScope | PutOn | CloseGenerator | SafeGenerator | IdentifyGenerator | UseApiOnGenerator

  /** A Setup, a Measure, or a face closing the box's unit. */
  predicate Disturbs(call: Call) {
    || call.SetChannel? || call.SetTrigger? || call.SetWindow? || call.SetBits? || call.Read?
    || call.CloseScope? || call.UseApiOnScope? || call.CloseGenerator? || call.UseApiOnGenerator?
  }

  /** What a refused Setup, and every other call, leaves of the settings, and what one that is not makes of them. */
  function SettingsAfter(s: Settings, call: Call): Settings
    requires |s.channels| == CHANNELS && (call.SetChannel? ==> call.n < CHANNELS)
  {
    match call
    case SetChannel(n, c) =>
      if (c.probe.Some? && c.probe.value <= 0.0) || (c.range.Some? && c.range.value <= 0.0) then s
      else s.(channels := s.channels[n := ChannelSetUp(s.channels[n], c)])
    case SetTrigger(c) => s.(trigger := TriggerSetUp(s.trigger, c))
    case SetWindow(c) =>
      if (c.perDivision.Some? && c.perDivision.value <= 0.0) || (c.points.Some? && c.points.value < 2) then s
      else s.(window := WindowSetUp(s.window, c))
    case SetBits(bits) => s.(bits := Or(bits, s.bits))
    case _ => s
  }

  predicate InBounds(calls: seq<Call>) {
    forall k :: 0 <= k < |calls| && calls[k].SetChannel? ==> calls[k].n < CHANNELS
  }

  /** Everything set up by a history of calls, whatever the SDK answered and whichever of them threw. */
  function SetUpBy(calls: seq<Call>): (s: Settings)
    requires InBounds(calls)
    ensures |s.channels| == CHANNELS
  {
    if calls == [] then Settings(None, [BLANK, BLANK], Trigger(None, None, None, None), Window(None, None, None, None))
    else SettingsAfter(SetUpBy(calls[..|calls| - 1]), calls[|calls| - 1])
  }

  /** Nothing has disturbed what the last Arm started. */
  predicate Quiet(calls: seq<Call>) {
    calls != [] &&
    var last := calls[|calls| - 1];
    last.Arm? || (!Disturbs(last) && Quiet(calls[..|calls| - 1]))
  }

  /** Nothing disturbed it until the last Await. */
  predicate QuietWhenAwaited(calls: seq<Call>) {
    calls != [] &&
    var front, last := calls[..|calls| - 1], calls[|calls| - 1];
    if last.Await? then Quiet(front) else QuietWhenAwaited(front)
  }

  /** What a history of calls promises of the scope. */
  ghost predicate Promised(scope: Oscilloscope, calls: seq<Call>)
    reads scope, scope.box, scope.box.unit
  {
    && (Quiet(calls) ==> !scope.setUp && !scope.measured && (scope.pending.Some? ==> scope.Current()))
    && ((Quiet(calls) || QuietWhenAwaited(calls)) && scope.held.Some? && !scope.simulated ==>
         scope.heldOwn && !scope.heldSetUp)
  }

  /** One call to either face. */
  method Make(scope: Oscilloscope, wave: WaveformGenerator, call: Call, ghost before: seq<Call>)
    requires scope.Valid() && wave.box == scope.box && Promised(scope, before)
    requires call.SetChannel? ==> call.n < CHANNELS
    requires |scope.settings.channels| == CHANNELS
    modifies scope, scope.box, if scope.box.unit == null then {} else {scope.box.unit}
    ensures scope.Valid() && Promised(scope, before + [call])
    ensures scope.settings == SettingsAfter(old(scope.settings), call)
    ensures scope.box.unit == null || scope.box.unit == old(scope.box.unit) || fresh(scope.box.unit)
  {
    hide ChannelAsNamed, TriggerAsNamed, WindowAsNamed, Serves, TriggeredOn, ReadAsRun, TakenAs, ToldAllAsSet,
         ToldWhole, InStep, Oscilloscope.InFlight, Oscilloscope.StillSo, Oscilloscope.Shaped, Oscilloscope.HeldWell,
         RecordOf, Oscilloscope.AwaitEnds, Oscilloscope.PushedOn, Oscilloscope.OwnBlock, CalledFor, SentWell,
         Converts;
    assert (before + [call])[..|before|] == before;
    assert scope.Objects() == {scope, scope.box} + if scope.box.unit == null then {} else {scope.box.unit};
    if call.PutOn? || call.CloseGenerator? || call.SafeGenerator? || call.IdentifyGenerator? || call.UseApiOnGenerator? {
      MakeOther(scope, wave, call);
      return;
    }
    var r, done, record, ok;
    match call {
      case SetChannel(n, c) => r := scope.ConfigureChannel(n, c);
      case SetTrigger(c) => scope.ConfigureTrigger(c);
      case SetWindow(c) => r := scope.ConfigureTimebase(c);
      case SetBits(bits) => r := scope.ConfigureAcquisition(bits);
      case Arm => r := scope.ArmSingle();
      case Await(completes) => r, done := scope.AwaitAcquisition(completes);
      case Read => r, record := scope.Measure();
      case CloseScope => scope.CloseSession();
      case SafeScope => scope.Safe();
      case IdentifyScope => ok := scope.Identity();
      case UseApiOnScope => scope.UseApi();
      case _ =>
    }
  }

  /** One call to the generator: the scope keeps what it knows, and its unit unless that is closed. */
  method MakeOther(scope: Oscilloscope, wave: WaveformGenerator, call: Call)
    requires scope.Valid() && wave.box == scope.box
    modifies scope.box`calls, scope.box`handles, scope.box`generations, scope.box`unit, scope.box`opens
    ensures scope.Valid()
    ensures scope.box.unit == null || scope.box.unit == old(scope.box.unit) || fresh(scope.box.unit)
    ensures !Disturbs(call) && old(scope.Current()) ==> scope.Current()
  {
    hide InStep, Oscilloscope.InFlight, Oscilloscope.StillSo, Oscilloscope.Shaped, Oscilloscope.HeldWell, SentWell,
         Converts;
    var ok;
    match call {
      case PutOn => ok := wave.Drive();
      case CloseGenerator => wave.CloseSession();
      case SafeGenerator => wave.Safe();
      case IdentifyGenerator => ok := wave.Identity();
      case UseApiOnGenerator => wave.UseApi();
      case _ =>
    }
  }

  /**
    Whatever the two faces are asked to do, in whatever order, and whatever the SDK answers: besides
    the abandoned handles at most one is open; an armed face has a block in flight; a completed one
    has a record in hand; and a record awaited with nothing in between is of its own block, which the
    unit ran as it was last told. That is as set up now exactly where, of what a Setup that threw left
    behind, the last push asked the same; and the record is read as it was run exactly where, of the
    same channels, the last push that succeeded whole gave the last conversion told.
  */
  method DriveBox(answers: nat -> bool, patience: nat, simulated: bool, calls: seq<Call>) returns (scope: Oscilloscope)
    requires InBounds(calls)
    ensures scope.settings == SetUpBy(calls)
    ensures scope.Valid() && scope.box.answers == answers
    ensures |scope.box.handles| == |scope.box.Abandoned()| + if scope.box.unit == null then 0 else 1
    ensures scope.armed && !simulated ==> scope.pending.Some?
    ensures scope.completed <==> scope.held.Some?
    ensures scope.simulated == simulated
    ensures QuietWhenAwaited(calls) && scope.held.Some? && !simulated ==>
              && RecordOf(scope.held.value, scope.settings, scope.books)
              && (TakenAs(scope.held.value.block.value, scope.settings) <==> ToldAllAsSet(scope.settings, scope.books))
              && (ReadAsRun(scope.held.value) <==> ToldWhole(scope.books))
              && forall n :: 0 <= n < CHANNELS && n !in scope.books.stale ==>
                   Serves(scope.held.value.block.value.told[n], scope.settings.channels[n])
  {
    hide Serves, SettingsAfter, InStep, Oscilloscope.InFlight, Oscilloscope.StillSo, CalledFor, SentWell, Converts;
    var box := new Box(answers, patience);
    scope := new Oscilloscope(box, simulated);
    var wave := new WaveformGenerator(box);
    for n := 0 to |calls|
      invariant scope.box == box && wave.box == box && scope.simulated == simulated
      invariant fresh(scope) && fresh(box) && (box.unit != null ==> fresh(box.unit))
      invariant scope.Valid() && Promised(scope, calls[..n]) && scope.settings == SetUpBy(calls[..n])
    {
      Make(scope, wave, calls[n], calls[..n]);
      assert calls[..n + 1] == calls[..n] + [calls[n]];
    }
    assert calls[..|calls|] == calls;
    if QuietWhenAwaited(calls) && scope.held.Some? && !simulated {
      RecordTakenExactly(scope.held.value, scope.settings, scope.books);
      RecordReadExactly(scope.held.value, scope.settings, scope.books);
      RecordServes(scope.held.value, scope.settings, scope.books);
    }
  }
}
