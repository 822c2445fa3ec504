/**
  The run (framework/runner/src/main.cpp): `runHook`, `TeardownGuard`, `runSelectedTests`,
  `runOnePass`, `runPasses`, `runTests` and the guarded block of `main`, with the stop flag of
  framework/core/include/core/control/stop_request.hpp.

  Hooks, scripts and whoever asks for a stop are a World: what each does at any point of the run.
  An exception is an out-parameter `threw`, after whatever destructors ran on its way.
*/
module RunLifecycle {
  import opened Laws
  import opened Optional
  import opened RunParts
  import opened RunTrace
  import opened RunVerdict

  class Runner {
    const c: Catalog
    const o: Options
    const w: World
    var trace: seq<Event>
    var honoured: bool            // gStopHonoured

    constructor (c: Catalog, o: Options, w: World)
      requires Honest(w)
      ensures Valid() && trace == [] && this.c == c && this.o == o && this.w == w
    {
      this.c, this.o, this.w := c, o, w;
      trace, honoured := [], false;
    }

    ghost function Here(): Stage
      reads this
    {
      StageOf(trace)
    }

    ghost predicate Valid()
      reads this
    {
      && Honest(w) && Legal(c, o, trace) && Faithful(w, trace)
      && honoured == Here().stopped && (honoured ==> w.stop(|trace|))
    }

    method Append(e: Event)
      requires Legal(c, o, trace) && Faithful(w, trace)
      requires Allowed(c, o, Here(), e) && Echoes(w, |trace|, e)
      modifies this`trace
      ensures Legal(c, o, trace) && Faithful(w, trace)
      ensures trace == old(trace) + [e] && Here() == Moved(old(Here()), e)
    {
      hide Allowed, Moved, Echoes;
      ghost var before := trace;
      trace := trace + [e];
      assert trace[..|trace| - 1] == before;
    }

    method Emit(e: Event)
      requires Valid() && !e.Asked? && Allowed(c, o, Here(), e) && Echoes(w, |trace|, e)
      modifies this`trace
      ensures Valid() && trace == old(trace) + [e] && Here() == Moved(old(Here()), e)
    {
      KeepsStopped(Here(), e);
      hide Legal, StageOf, Faithful, Allowed, Moved, Echoes;
      Append(e);
    }

    method StopNow() returns (stop: bool)
      requires Valid() && Allowed(c, o, Here(), Asked(w.stop(|trace|)))
      modifies this
      ensures Valid() && stop == old(w.stop(|trace|)) && trace == old(trace) + [Asked(stop)]
      ensures Here() == Moved(old(Here()), Asked(stop))
      ensures old(Here()).stopped ==> stop
    {
      stop := w.stop(|trace|);
      AsksStopped(Here(), stop);
      hide Legal, StageOf, Faithful, Allowed, Moved;
      Append(Asked(stop));
      if stop {
        honoured := true;
      }
    }

    /** A hook inside its phase, up to what it answers. */
    method CallHook(owner: Option<nat>, phase: Phase) returns (answer: HookOutcome)
      requires Valid() && Allowed(c, o, Here(), BeginPhase(owner, phase))
      requires forall a :: Allowed(c, o, Moved(Here(), BeginPhase(owner, phase)), Called(owner, phase, a))
      modifies this`trace
      ensures Valid() && trace == old(trace) + [BeginPhase(owner, phase), Called(owner, phase, answer)]
      ensures Here() == Moved(Moved(old(Here()), BeginPhase(owner, phase)), Called(owner, phase, answer))
      ensures answer == old(w.hook(|trace| + 1))
    {
      hide Legal, StageOf, Faithful, Allowed, Moved, Honest;
      Emit(BeginPhase(owner, phase));
      answer := w.hook(|trace|);
      Emit(Called(owner, phase, answer));
    }

    method CallSetup(owner: Option<nat>) returns (answer: HookOutcome)
      requires Valid() && !Here().hooks.runTornDown && !Here().safed && SetupAllowed(c, Here(), owner)
      modifies this`trace
      ensures Valid() && trace == old(trace) + SetupEvents(owner, answer)
      ensures Here() == AfterHook(old(Here()), owner, Setup, answer)
    {
      HookSteps(c, o, Here(), owner, Setup);
      hide Valid, Here, Allowed, Moved, SetupAllowed;
      answer := CallHook(owner, Setup);
      Emit(EndPhase);
    }

    /** `runHook`: a setup, if there is one. */
    method RunSetup(owner: Option<nat>, declared: bool) returns (passed: bool, threw: bool, ghost did: seq<Event>)
      requires Valid() && !Here().hooks.runTornDown && !Here().safed
      requires declared ==> SetupAllowed(c, Here(), owner)
      modifies this`trace
      ensures Valid() && trace == old(trace) + did
      ensures !declared ==> did == [] && Here() == old(Here()) && passed && !threw
      ensures declared ==> exists answer :: did == SetupEvents(owner, answer)
                                            && Here() == AfterHook(old(Here()), owner, Setup, answer)
                                            && passed == answer.Succeeded? && threw == answer.HookThrew?
    {
      hide Valid, Here, SetupAllowed, AfterHook, SetupEvents;
      if !declared {
        return true, false, [];
      }
      var answer := CallSetup(owner);
      return answer.Succeeded?, answer.HookThrew?, SetupEvents(owner, answer);
    }

    /** The body of `~TeardownGuard` where there is a hook: whatever it does, nothing escapes. */
    method CallTeardown(owner: Option<nat>) returns (answer: HookOutcome)
      requires Valid() && !Here().hooks.runTornDown && !Here().safed && TeardownAllowed(c, o, Here(), owner)
      modifies this`trace
      ensures Valid() && trace == old(trace) + TeardownEvents(owner, answer)
      ensures Here() == AfterHook(old(Here()), owner, Teardown, answer)
    {
      HookSteps(c, o, Here(), owner, Teardown);
      hide Valid, Here, Allowed, Moved, TeardownAllowed, Failure, FailureAllowed;
      answer := CallHook(owner, Teardown);
      EndTeardown(answer);
      RegroupLast(old(trace), [BeginPhase(owner, Teardown), Called(owner, Teardown, answer)], Failure(answer), [EndPhase]);
    }

    /** `~TeardownGuard`: a teardown, if there is one, and what it makes of the verdict. */
    method TearDown(owner: Option<nat>, declared: bool, already: bool)
        returns (allPassed: bool, ghost did: seq<Event>)
      requires Valid() && !Here().hooks.runTornDown && !Here().safed
      requires declared ==> TeardownAllowed(c, o, Here(), owner)
      modifies this`trace
      ensures Valid() && trace == old(trace) + did && TeardownDone(owner, did)
      ensures !declared ==> did == [] && Here() == old(Here())
      ensures declared ==> exists answer :: did == TeardownEvents(owner, answer)
                                            && Here() == AfterHook(old(Here()), owner, Teardown, answer)
      ensures allPassed == (already && Undone(did))
    {
      hide Valid, Here, TeardownAllowed, AfterHook, TeardownEvents, TeardownDone, Undone;
      allPassed, did := already, [];
      if declared {
        var answer := CallTeardown(owner);
        did := TeardownEvents(owner, answer);
        allPassed := already && answer.Succeeded?;
        TeardownDid(owner, answer);
      } else {
        NoTeardownDid(owner);
      }
    }

    /** The guard's `fail`, unless the teardown succeeded, and the end of its phase. */
    method EndTeardown(answer: HookOutcome)
      requires Valid() && Allowed(c, o, Here(), EndPhase) && FailureAllowed(c, o, Here())
      modifies this`trace
      ensures Valid() && trace == old(trace) + Failure(answer) + [EndPhase]
      ensures Here() == Moved(old(Here()), EndPhase)
    {
      hide Valid, Here, Allowed, Moved;
      if !answer.Succeeded? {
        Emit(Noted(TeardownFailed));
      }
      Emit(EndPhase);
    }

    /** What follows a script that returned, or that a stop cut short: the catch, and the verdict. */
    method CloseTest(left: ScriptOutcome) returns (passed: bool, ghost did: seq<Event>)
      requires Valid() && !left.ScriptThrew? && (left.StopRequested? ==> w.stop(|trace|))
      requires left.StopRequested? ==> Allowed(c, o, Here(), Asked(true))
      requires Allowed(c, o, AfterCatch(Here(), left), EndTest(left.ChecksPassed?))
      modifies this
      ensures Valid() && trace == old(trace) + did && did == CloseEvents(left)
      ensures Here() == Moved(AfterCatch(old(Here()), left), EndTest(left.ChecksPassed?))
      ensures passed == left.ChecksPassed?
    {
      hide Legal, StageOf, Faithful, Allowed, Moved, Honest;
      did := [];
      if left.StopRequested? {
        var stop := StopNow();
        did := [Asked(true)];
      }
      passed := left.ChecksPassed?;
      Emit(EndTest(passed));
      did := did + [EndTest(passed)];
    }

    /** The script itself, between the opening of its test and whatever came of it. */
    method RunScript(id: string) returns (left: ScriptOutcome)
      requires Valid() && Allowed(c, o, Here(), BeginTest(id))
      requires Allowed(c, o, Moved(Here(), BeginTest(id)), Ran(w.script(|trace| + 1)))
      modifies this
      ensures Valid() && trace == old(trace) + [BeginTest(id), Ran(left)]
      ensures Here() == Moved(Moved(old(Here()), BeginTest(id)), Ran(left))
      ensures left == old(w.script(|trace| + 1)) && (left.StopRequested? ==> w.stop(|trace|))
    {
      left := w.script(|trace| + 1);
      assert left.StopRequested? ==> w.stop(|trace| + 2);
      hide Legal, StageOf, Faithful, Allowed, Moved, Honest;
      Emit(BeginTest(id));
      Emit(Ran(left));
    }

    /** One test of the loop in `runSelectedTests`. */
    method RunTest(id: string, g: nat) returns (passed: bool, left: ScriptOutcome, ghost did: seq<Event>)
      requires Valid() && Inside(c, o, Here(), g) && Here().cleared && !Here().stopped
      requires id in c.At(g).tests && IsSelected(o, id)
      modifies this
      ensures Valid() && trace == old(trace) + did && did == TestEvents(id, left)
      ensures Here() == AfterTest(old(Here()), id, left)
      ensures passed == left.ChecksPassed?
    {
      hide Valid, Here, Allowed, Moved, Inside, AfterCatch, CloseEvents, IsSelected;
      TestSteps(c, o, Here(), id, g, w.script(|trace| + 1));
      left := RunScript(id);
      did := [BeginTest(id), Ran(left)];
      passed := false;
      if !left.ScriptThrew? {
        ghost var rest;
        passed, rest := CloseTest(left);
        did := did + rest;
      }
    }

    /** One turn of the loop in `runSelectedTests`: the poll, and the test unless it says stop. */
    method PollAndRun(id: string, g: nat) returns (flow: Flow, passed: bool, ghost did: seq<Event>)
      requires Valid() && Inside(c, o, Here(), g) && !Here().stopped
      requires id in c.At(g).tests && IsSelected(o, id)
      modifies this
      ensures Valid() && trace == old(trace) + did && TurnDid(id, flow, passed, did)
      ensures if flow.GoOn? then Inside(c, o, Here(), g) && Here().hooks.runSetup == old(Here()).hooks.runSetup
              else LeftGroup(c, o, old(Here()).hooks.runSetup, Here(), g, flow.Unwind?)
      ensures Here().stopped == flow.WindDown?
    {
      hide Valid, Here, Inside, LeftGroup, AfterTest, TestEvents, Allowed, Moved, IsSelected, TurnDid;
      var stop := w.stop(|trace|);
      PollSteps(c, o, Here(), g, stop);
      stop := StopNow();
      passed, did := true, [Asked(stop)];
      if stop {
        PollDid(id);
        return WindDown, true, did;
      }
      var left;
      ghost var more;
      AfterTestStands(c, o, Here(), id, g);
      passed, left, more := RunTest(id, g);
      TestDid(id, left);
      did := did + more;
      flow := if left.ScriptThrew? then Unwind else if left.StopRequested? then WindDown else GoOn;
    }

    /** The selected tests of an opened group, until one throws or a stop is honoured. */
    method RunSelectedTests(g: nat, already: bool) returns (allPassed: bool, threw: bool, ghost did: seq<Event>)
      requires Valid() && Inside(c, o, Here(), g) && !Here().stopped
      modifies this
      ensures Valid() && trace == old(trace) + did
      ensures LeftGroup(c, o, old(Here()).hooks.runSetup, Here(), g, threw) && Here().stopped == Stopped(did)
      ensures Asks(Selected(o, c.At(g).tests), did, threw)
      ensures Verdict(already, allPassed, threw, did) && NoHooks(did)
    {
      hide Valid, Here, Inside, LeftGroup, Clean, Stopped, NoHooks, IsSelected, TurnDid, Selected, TestsRun;
      var tests := c.At(g).tests;
      allPassed, threw, did := already, false, [];
      NothingDid();
      SelectsNothing(o);
      assert tests[..0] == [];
      for n := 0 to |tests|
        invariant Valid() && trace == old(trace) + did
        invariant Inside(c, o, Here(), g) && !Here().stopped && Here().hooks.runSetup == old(Here()).hooks.runSetup
        invariant TestsRun(did) == Selected(o, tests[..n]) && !Stopped(did)
        invariant (allPassed <==> already && Clean(did)) && NoHooks(did)
      {
        SelectedFront(o, tests, n);
        if !IsSelected(o, tests[n]) {
          continue;
        }
        ghost var more;
        var flow, passed;
        flow, passed, more := PollAndRun(tests[n], g);
        TurnJoined(did, tests[n], flow, passed, more);
        SelectedFront(o, tests, n + 1);
        did := did + more;
        if flow.Unwind? {
          threw := true;
          return;
        }
        allPassed := allPassed && passed;
        if flow.WindDown? {
          return;
        }
      }
      assert tests[..|tests|] == tests;
      InsideLeaves(c, o, Here(), g);
    }

    /** The inside of a group's guard in `runOnePass`: its setup and, unless that refuses, its tests. */
    method WorkGroup(g: nat, already: bool) returns (allPassed: bool, threw: bool, ghost did: seq<Event>)
      requires Valid() && Opened(c, o, Here(), g)
      modifies this
      ensures Valid() && trace == old(trace) + did
      ensures LeftGroup(c, o, old(Here()).hooks.runSetup, Here(), g, threw) && Here().stopped == Stopped(did)
      ensures Asks(GroupTests(c, o, did, g), did, threw)
      ensures Verdict(already, allPassed, threw, did) && OwnedBy(did, g)
    {
      hide Valid, Here, Opened, Inside, LeftGroup, AfterHook, Allowed, Moved, SetupAllowed, Asks, Verdict, OwnedBy,
           GroupTests, SetupDone, NoHooks, Stopped, Selected;
      var passed;
      OpenedSteps(c, o, Here(), g);
      passed, threw, did := RunSetup(Some(g), c.At(g).setup);
      SetupDid(o, g, did, passed, threw);
      if threw {
        ThrewDid(c, o, g, did, already);
        return false, true, did;
      }
      if !passed && !o.skeleton {
        Emit(Noted(SetupRefused));
        RefusedDid(c, o, g, did, already);
        return false, false, did + [Noted(SetupRefused)];
      }
      ghost var more;
      allPassed, threw, more := RunSelectedTests(g, already && passed);
      TestsJoined(c, o, g, did, passed, already, allPassed, threw, more);
      did := did + more;
    }

    /** One opened group of `runOnePass`, from beginGroup to endGroup, its teardown on every way out. */
    method RunGroup(g: nat, already: bool) returns (allPassed: bool, threw: bool, ghost did: seq<Event>)
      requires Valid() && Between(c, o, Here()) && Here().cleared && !Here().stopped
      requires g < |c.groups| && Selected(o, c.groups[g].tests) != []
      modifies this
      ensures Valid() && trace == old(trace) + did
      ensures if threw then Leaving(c, o, Here()) && Here().thrown else Between(c, o, Here())
      ensures Here().stopped == Stopped(did)
      ensures Asks(GroupTests(c, o, did, g), did, threw)
      ensures Verdict(already, allPassed, threw, did) && OwnedBy(did, g)
    {
      hide Valid, Here, Opened, Between, Leaving, LeftGroup, AfterHook, Allowed, Moved, TeardownAllowed, Asks,
           Verdict, OwnedBy, GroupTests, Stopped, Selected, TeardownDone;
      ghost var setup := Here().hooks.runSetup;
      OpensGroup(c, o, Here(), g);
      Emit(BeginGroup(g));
      ghost var work, down;
      allPassed, threw, work := WorkGroup(g, already);
      ClosesGroup(c, o, setup, Here(), g, threw);
      ghost var soFar := allPassed;
      allPassed, down := TearDown(Some(g), c.At(g).teardown, allPassed);
      GroupJoined(c, o, g, work, down, already, soFar, threw);
      did := [BeginGroup(g)] + work + down;
      if threw {
        return;
      }
      Emit(EndGroup);
      GroupEnded(c, o, g, did, already, allPassed, threw);
      did := did + [EndGroup];
    }

    /** `anySelected`. */
    method AnySelected(tests: seq<string>) returns (any: bool)
      ensures any <==> Selected(o, tests) != []
    {
      SelectsAny(o, tests);
      for n := 0 to |tests|
        invariant forall i :: 0 <= i < n ==> !IsSelected(o, tests[i])
      {
        if IsSelected(o, tests[n]) {
          return true;
        }
      }
      return false;
    }

    /** One pass over the selection: every group with something selected, until a throw or a stop. */
    method RunOnePass() returns (allPassed: bool, threw: bool, ghost did: seq<Event>)
      requires Valid() && Between(c, o, Here()) && !Here().stopped
      modifies this
      ensures Valid() && trace == old(trace) + did
      ensures if threw then Leaving(c, o, Here()) && Here().thrown else Between(c, o, Here())
      ensures Here().stopped == Stopped(did)
      ensures Asks(PassTests(c, o, did, |c.groups|), did, threw)
      ensures Verdict(true, allPassed, threw, did) && GroupHooks(did)
    {
      hide Valid, Here, Between, Leaving, Allowed, Moved, Asks, Verdict, OwnedBy, GroupTests, Stopped, Selected,
           PassTests, Before, GroupHooks;
      allPassed, threw, did := true, false, [];
      NoPassYet(c, o);
      for g := 0 to |c.groups|
        invariant Valid() && trace == old(trace) + did
        invariant Between(c, o, Here()) && Here().stopped == Stopped(did)
        invariant Asks(PassTests(c, o, did, g), did, false) && Verdict(true, allPassed, false, did) && Before(did, g)
      {
        PassEnds(c, o, did, g);
        var any := AnySelected(c.groups[g].tests);
        if !any {
          NoGroupJoined(c, o, did, g);
          continue;
        }
        PollsBetween(c, o, Here(), w.stop(|trace|));
        var stop := StopNow();
        PollJoined(c, o, did, g, allPassed, stop);
        did := did + [Asked(stop)];
        if stop {
          PassEnds(c, o, did, g);
          return;
        }
        var passed;
        ghost var more;
        passed, threw, more := RunGroup(g, true);
        PassJoined(c, o, did, g, allPassed, passed, threw, more);
        did := did + more;
        allPassed := allPassed && passed;
        if threw {
          PassCut(c, o, did, g + 1);
          return;
        }
      }
      PassEnds(c, o, did, |c.groups|);
    }

    /** One turn of the loop in `runPasses`: the poll and, unless it says stop, the pass. */
    method PollAndPass() returns (flow: Flow, passed: bool, ghost pass: seq<Event>)
      requires Valid() && Between(c, o, Here())
      modifies this
      ensures Valid() && trace == old(trace) + if flow.WindDown? then [Asked(true)] else Lead(o) + pass
      ensures if flow.Unwind? then Leaving(c, o, Here()) && Here().thrown else Between(c, o, Here())
      ensures if flow.WindDown? then Here().stopped else !old(Here()).stopped && Here().stopped == Stopped(pass)
      ensures !flow.WindDown? ==> Asks(PassTests(c, o, pass, |c.groups|), pass, flow.Unwind?)
                                  && Verdict(true, passed, flow.Unwind?, pass) && GroupHooks(pass)
    {
      hide Valid, Here, Between, Leaving, Allowed, Moved, Asks, Verdict, Stopped, PassTests, GroupHooks;
      PollsBetween(c, o, Here(), w.stop(|trace|));
      var stop := StopNow();
      if stop {
        return WindDown, true, [];
      }
      if PassCount(o) > 1 {
        NotesBetween(c, o, Here(), PassBegins);
        Emit(Noted(PassBegins));
      }
      var threw;
      passed, threw, pass := RunOnePass();
      flow := if threw then Unwind else GoOn;
    }

    /** The passes, as many as asked for, or up to one that fails, throws or is stopped. */
    method RunPasses(already: bool)
        returns (allPassed: bool, threw: bool, ghost did: seq<Event>, ghost passes: seq<seq<Event>>)
      requires Valid() && Between(c, o, Here()) && !Here().stopped
      modifies this
      ensures Valid() && trace == old(trace) + did
      ensures Leaving(c, o, Here()) && Here().thrown == threw && Here().stopped == Stopped(did)
      ensures PassesMade(c, o, passes, did, threw) && GroupHooks(did)
      ensures if threw then !Clean(did) else allPassed <==> already && Clean(did) && !Stopped(did)
    {
      hide Valid, Here, Between, Leaving, Allowed, Moved, Asks, Verdict, Stopped, PassTests, Clean, MadeSoFar, Lead,
           Woven, PassesMade, PassesOver, PassesAsked, FailedLast, GroupHooks;
      allPassed, threw, did, passes := already, false, [], [];
      NothingMade(c, o);
      var count := PassCount(o);
      var cut := false;
      for n := 0 to count
        invariant Valid() && trace == old(trace) + did && |passes| == n
        invariant Between(c, o, Here()) && Here().stopped == Stopped(did)
        invariant MadeSoFar(c, o, passes, did) && GroupHooks(did) && (allPassed <==> already && Clean(did))
      {
        var flow, passed;
        ghost var pass;
        flow, passed, pass := PollAndPass();
        if flow.WindDown? {
          StopMade(c, o, passes, did);
          did := did + [Asked(true)];
          cut := true;
          break;
        }
        PassMade(c, o, passes, did, pass, passed, flow.Unwind?);
        did := did + (Lead(o) + pass);
        passes := passes + [pass];
        if flow.Unwind? {
          threw := true;
          return;
        }
        allPassed := allPassed && passed;
        if !passed && o.untilFailure {
          NotesBetween(c, o, Here(), FailedPassStops);
          Emit(Noted(FailedPassStops));
          FailMade(c, o, passes, did);
          did := did + [Noted(FailedPassStops)];
          cut := true;
          break;
        }
      }
      if !cut {
        AllMade(c, o, passes, did);
      }
      BetweenLeaves(c, o, Here());
      HonouredIsStopped();
      OverMade(c, o, passes, did);
      if honoured {
        NotesBetween(c, o, Here(), StoppedEarly);
        Emit(Noted(StoppedEarly));
        BetweenLeaves(c, o, Here());
        did := did + [Noted(StoppedEarly)];
        allPassed := false;
      }
    }

    lemma HonouredIsStopped()
      requires Valid()
      ensures honoured == Here().stopped
    {}

    /** `unmatchedSelection`. */
    method FindUnmatched() returns (unmatched: seq<string>)
      ensures unmatched == UnmatchedOf(c, o.selection)
    {
      hide InCatalog;
      unmatched := [];
      for n := 0 to |o.selection|
        invariant unmatched == UnmatchedOf(c, o.selection[..n])
      {
        var found := Finds(o.selection[n]);
        assert o.selection[..n + 1][..n] == o.selection[..n];
        if !found {
          unmatched := unmatched + [o.selection[n]];
        }
      }
      assert o.selection[..|o.selection|] == o.selection;
    }

    /** The two inner loops: whether some group has a test of this id. */
    method Finds(id: string) returns (found: bool)
      ensures found <==> InCatalog(c, id)
    {
      found := false;
      for g := 0 to |c.groups|
        invariant found <==> exists h :: 0 <= h < g && id in c.groups[h].tests
      {
        var tests, before := c.groups[g].tests, found;
        for i := 0 to |tests|
          invariant found <==> before || id in tests[..i]
        {
          if tests[i] == id {
            found := true;
          }
        }
        assert tests[..|tests|] == tests;
      }
    }

    /** What `runTests` does inside the run's guard: RUN_SETUP and, unless that refuses, the passes. */
    method Bracketed() returns (allPassed: bool, threw: bool, ghost did: seq<Event>, ghost run: Run)
      requires Valid() && Here() == Moved(START, Armed)
      modifies this
      ensures Valid() && trace == old(trace) + did
      ensures Leaving(c, o, Here()) && Here().thrown == threw && RunDid(c, o, did, run, threw)
      ensures if threw then !Clean(did) else allPassed <==> Clean(did) && !Stopped(did)
    {
      hide Valid, Here, Between, Leaving, Allowed, Moved, SetupAllowed, Asks, Verdict, Stopped, AfterHook, Clean,
           RunDid, PassesMade, RunSetupDone;
      var passed;
      ArmedSteps(c, o);
      passed, threw, did := RunSetup(None, c.setup);
      RunSetupDid(o, did, passed, threw);
      if threw {
        GatedDid(c, o, did, passed, threw);
        return false, true, did, Run(did, [], [], []);
      }
      if !passed && !o.skeleton {
        GatedDid(c, o, did, passed, threw);
        Emit(Noted(SetupRefused));
        did := did + [Noted(SetupRefused)];
        return false, false, did, Run(did, [], [], []);
      }
      ghost var more, passes;
      allPassed, threw, more, passes := RunPasses(passed);
      PassesDid(c, o, did, passed, more, passes, threw);
      did, run := did + more, Run(did, more, passes, []);
    }

    /** The run's guard in `runTests`: its teardown runs on every way out of what it guards. */
    method Guarded() returns (allPassed: bool, threw: bool, ghost run: Run)
      requires Valid() && trace == []
      modifies this
      ensures Valid() && RunOver(c, o, Here(), threw) && RunDid(c, o, trace, run, threw)
      ensures if threw then !Clean(trace) else allPassed <==> Clean(trace) && !Stopped(trace)
    {
      NothingYetHere();
      StartSteps(c, o);
      hide Valid, Here, Leaving, Allowed, Moved, TeardownAllowed, Stopped, AfterHook, Clean, RunDid, RunOver,
           TeardownDone;
      Emit(Armed);
      ghost var did, down;
      allPassed, threw, did, run := Bracketed();
      LeavesOver(c, o, Here());
      allPassed, down := TearDown(None, c.teardown, allPassed);
      RunJoined(c, o, did, run, threw, down);
      run := Around(run, [Armed], down);
      assert trace == [Armed] + did + down;
    }

    /** The whole run, once its selection is known to be good. */
    method RunTests() returns (allPassed: bool, threw: bool, ghost run: Run)
      requires Valid() && trace == []
      modifies this
      ensures Valid()
      ensures if UnmatchedOf(c, o.selection) == [] then RunOver(c, o, Here(), threw) && RunDid(c, o, trace, run, threw)
              else trace == [] && !threw && run == Run([], [], [], [])
      ensures if threw then !Clean(trace)
              else allPassed <==> UnmatchedOf(c, o.selection) == [] && Clean(trace) && !Stopped(trace)
      ensures TestsRun(trace) == AllTests(run.passes)
      ensures allPassed && !threw ==> TestsRun(trace) == Times(PassCount(o), SelectionOf(c, o, |c.groups|))
    {
      hide Valid, Here, Stopped, Clean, RunDid, RunOver, UnmatchedOf;
      var unmatched := FindUnmatched();
      if unmatched != [] {
        return false, false, Run([], [], [], []);
      }
      allPassed, threw, run := Guarded();
      RunTestsAreThePasses(c, o, trace, run, threw);
      if allPassed && !threw {
        CleanRunRanEverything(c, o, trace, run);
      }
    }

    lemma NothingYetHere()
      requires trace == []
      ensures Here() == START
    {}

    /** The guarded block of `main` and the end of the journal; `streamed` is what became of the reading stream. */
    method GuardedRun(streamed: bool) returns (verdict: bool, ghost run: Run)
      requires Valid() && trace == []
      modifies this
      ensures Valid() && Here().safed && |trace| >= 2 && trace[|trace| - 2..] == [Safed, Ended(verdict)]
      ensures Here().thrown ==> |trace| >= 3 && trace[|trace| - 3] == Noted(Uncaught)
      ensures verdict <==> UnmatchedOf(c, o.selection) == [] && Clean(trace) && !Stopped(trace) && streamed
      ensures RunTeardowns(trace) == if UnmatchedOf(c, o.selection) == [] && c.teardown then 1 else 0
      ensures GroupTeardowns(trace) == OwedTeardowns(c, trace) && Depth(trace) == 0
      ensures if UnmatchedOf(c, o.selection) == [] then RunDid(c, o, trace, run, Here().thrown)
              else trace == [Safed, Ended(false)]
      ensures TestsRun(trace) == AllTests(run.passes)
      ensures verdict ==> TestsRun(trace) == Times(PassCount(o), SelectionOf(c, o, |c.groups|))
      ensures Means(c, o, trace, |run.passes|, verdict, streamed)
    {
      hide Closed, Means, Selected, AllWell, IsTest, AskedFor, WithinCount, CountedBy, RanAll, Clean, Stopped, RunDid,
           UnmatchedOf, Settled, TestsRun, SelectionOf, RunTeardowns, GroupTeardowns, OwedTeardowns, Depth, Valid,
           Here, Times, AllTests;
      var allPassed, threw;
      allPassed, threw, run := RunTests();
      if trace == [] {
        NothingYetHere();
      }
      ghost var over := trace;
      verdict, run := EndRun(allPassed, threw, streamed, run);
      ClosedEnds(over, threw, verdict);
      TornDown(verdict);
      Concludes(verdict, streamed, run, threw);
    }

    /** What an ended run leaves torn down. */
    lemma TornDown(verdict: bool)
      requires Valid() && Here().safed
      requires Settled(c, o, Here()) || trace == [Safed, Ended(verdict)]
      ensures Legal(c, o, trace)
      ensures RunTeardowns(trace) == if Settled(c, o, Here()) && c.teardown then 1 else 0
      ensures trace == [Safed, Ended(verdict)] ==> !Settled(c, o, Here())
      ensures GroupTeardowns(trace) == OwedTeardowns(c, trace) && Depth(trace) == 0
    {
      hide RunTeardowns, GroupTeardowns, OwedTeardowns, Depth, Legal, StageOf, Faithful, Honest, Settled;
      SettledRun(c, o, trace);
      SettledIsArmed(c, o, Here());
      SafedAlone(verdict);
    }

    /** One event of the end of a run: what it leaves as it was. */
    method EmitEnd(e: Event, threw: bool, ghost done: Run) returns (ghost run: Run)
      requires Valid() && (Here() == START || Settled(c, o, Here()) || (Here().safed && !Here().armed))
      requires
        || (e == Noted(Uncaught) && !Here().safed && Here().thrown)
        || (e.Safed? && !Here().safed && (Here().thrown ==> Here().note == Some(Uncaught)))
        || (e.Ended? && Here().safed)
      modifies this
      ensures Valid() && trace == old(trace) + [e]
      ensures Here().thrown == old(Here()).thrown && Here().safed == (old(Here()).safed || e.Safed?)
      ensures old(Settled(c, o, Here())) ==> Settled(c, o, Here())
      ensures !old(Here()).armed ==> !Here().armed
      ensures e.Noted? ==> Here().note == Some(e.kind)
      ensures (Clean(trace) <==> Clean(old(trace))) && (Stopped(trace) <==> Stopped(old(trace)))
      ensures RunDid(c, o, old(trace), done, threw) ==> RunDid(c, o, trace, run, threw)
      ensures run.passes == done.passes
    {
      hide Clean, Stopped, RunDid, Legal, StageOf, Faithful, Honest, Allowed, Moved, Settled;
      EndSteps(c, o, Here(), e);
      EndJoined(c, o, trace, done, threw, e);
      run := Around(done, [], [e]);
      Emit(e);
    }

    /** The note of an exception, the safing and the verdict. */
    method EndRun(allPassed: bool, threw: bool, streamed: bool, ghost done: Run) returns (verdict: bool, ghost run: Run)
      requires Valid() && !Here().safed && Here().thrown == threw
      requires Settled(c, o, Here()) || (trace == [] && !threw)
      modifies this
      ensures Valid() && Here().safed && Here().thrown == threw
      ensures trace == old(trace) + Closed(threw, verdict)
      ensures verdict == (allPassed && !threw && streamed)
      ensures old(Settled(c, o, Here())) ==> Settled(c, o, Here())
      ensures (Clean(trace) <==> Clean(old(trace))) && (Stopped(trace) <==> Stopped(old(trace)))
      ensures RunDid(c, o, old(trace), done, threw) ==> RunDid(c, o, trace, run, threw)
      ensures run.passes == done.passes
    {
      hide Clean, Stopped, RunDid, Valid, Here, Settled;
      if trace == [] {
        NothingYetHere();
      }
      run := done;
      if threw {
        run := EmitEnd(Noted(Uncaught), threw, run);
      }
      run := EmitEnd(Safed, threw, run);
      verdict := allPassed && !threw && streamed;
      run := EmitEnd(Ended(verdict), threw, run);
    }

    /** What the end of a run says of the whole of it. */
    lemma Concludes(verdict: bool, streamed: bool, run: Run, threw: bool)
      requires Legal(c, o, trace)
      requires verdict <==> UnmatchedOf(c, o.selection) == [] && Clean(trace) && !Stopped(trace) && streamed
      requires if UnmatchedOf(c, o.selection) == [] then RunDid(c, o, trace, run, threw) && (threw ==> !verdict)
               else trace == [Safed, Ended(false)] && run.passes == []
      ensures TestsRun(trace) == AllTests(run.passes)
      ensures verdict ==> TestsRun(trace) == Times(PassCount(o), SelectionOf(c, o, |c.groups|))
      ensures Means(c, o, trace, |run.passes|, verdict, streamed)
    {
      hide AllWell, IsTest, AskedFor, WithinCount, CountedBy, RanAll, Clean, Stopped, RunDid, UnmatchedOf, Legal,
           TestsRun, SetupGates;
      VerdictMeans(verdict, streamed);
      if UnmatchedOf(c, o.selection) == [] {
        RunTestsAreThePasses(c, o, trace, run, threw);
        PassesAreCounted(c, o, trace, run, threw);
        GatedRunsNothing(c, o, trace, run, threw);
        if verdict {
          CleanRunRanEverything(c, o, trace, run);
          PassingRunMeans(c, o, trace, run);
        }
      } else {
        NoTestInSafing(false);
        NoPassesCounted(o);
        NothingGated(o);
      }
    }

    lemma VerdictMeans(verdict: bool, streamed: bool)
      requires Legal(c, o, trace)
      requires verdict <==> UnmatchedOf(c, o.selection) == [] && Clean(trace) && !Stopped(trace) && streamed
      ensures verdict <==> streamed && AllWell(trace) && forall i :: 0 <= i < |o.selection| ==> IsTest(c, o.selection[i])
      ensures forall id :: id in TestsRun(trace) ==> AskedFor(o.selection, id) && IsTest(c, id)
    {
      hide AllWell, IsTest, AskedFor, Clean, Stopped, UnmatchedOf, Legal;
      CleanIsAllWell(trace);
      MatchedAreTests(c, o.selection);
      OnlyWhatWasAsked(c, o, trace);
    }
  }
}
