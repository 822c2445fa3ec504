/**
  The parts of a run (framework/runner/src/main.cpp): what the world answers, what a selection asks
  for, and what each bracket, from a hook to the whole run, leaves behind and where it leaves the run.
*/
module RunParts {
  import opened Optional
  import opened RunTrace

  /** What a hook, a script or the stop flag answers at a time, counted in events. */
  datatype World = World(hook: nat -> HookOutcome, script: nat -> ScriptOutcome, stop: nat -> bool)

  /** A run never un-asks, and a verb throws StopRequested only because a stop was requested. */
  ghost predicate Honest(w: World) {
    && (forall n: nat :: w.stop(n) ==> w.stop(n + 1))
    && (forall n: nat :: w.script(n).StopRequested? ==> w.stop(n))
  }

  predicate Echoes(w: World, n: nat, e: Event) {
    && (e.Asked? ==> e.stop == w.stop(n))
    && (e.Called? ==> e.answer == w.hook(n))
    && (e.Ran? ==> e.left == w.script(n))
  }

  predicate Faithful(w: World, trace: seq<Event>) {
    forall n: nat :: n < |trace| ==> Echoes(w, n, trace[n])
  }

  // ---------------------------------------------------------------- what a run is asked to do

  predicate InCatalog(c: Catalog, id: string) {
    exists g :: 0 <= g < |c.groups| && id in c.groups[g].tests
  }

  function UnmatchedOf(c: Catalog, selection: seq<string>): (r: seq<string>)
    ensures forall id :: id in r <==> id in selection && !InCatalog(c, id)
  {
    if selection == [] then []
    else
      var before, last := UnmatchedOf(c, selection[..|selection| - 1]), selection[|selection| - 1];
      if InCatalog(c, last) then before else before + [last]
  }

  const MAX_PASSES: nat := 0xFFFF_FFFF_FFFF_FFFF

  function PassCount(o: Options): nat {
    if o.repeat.Some? then o.repeat.value else if o.untilFailure then MAX_PASSES else 1
  }

  /** The group's own setup refused, in this stretch of a run that takes a refusal for an answer. */
  predicate RefusedIn(o: Options, did: seq<Event>, g: nat) {
    Called(Some(g), Setup, Refused) in did && !o.skeleton
  }

  /** What the selection asks of a group in a pass. */
  function GroupTests(c: Catalog, o: Options, did: seq<Event>, g: nat): seq<string> {
    if RefusedIn(o, did, g) then [] else Selected(o, c.At(g).tests)
  }

  /** What it asks of a pass: the first `n` groups' selected tests in catalog order. */
  function PassTests(c: Catalog, o: Options, did: seq<Event>, n: nat): seq<string> {
    if n == 0 then [] else PassTests(c, o, did, n - 1) + GroupTests(c, o, did, n - 1)
  }

  // ---------------------------------------------------------------- small facts

  predicate OwnedBy(did: seq<Event>, g: nat) {
    forall i :: 0 <= i < |did| ==> did[i].Called? ==> did[i].owner == Some(g)
  }

  lemma CleanOn(a: seq<Event>, b: seq<Event>)
    ensures Clean(a + b) <==> Clean(a) && Clean(b)
    ensures Stopped(a + b) <==> Stopped(a) || Stopped(b)
  {
    assert forall i :: 0 <= i < |a| ==> (a + b)[i] == a[i];
    assert forall i :: 0 <= i < |b| ==> (a + b)[|a| + i] == b[i];
  }

  lemma TestsRunOf(e: Event)
    ensures TestsRun([e]) == if e.BeginTest? then [e.id] else []
  {
    assert [e][..0] == [];
  }

  /** A stretch of `a` then `b`, all its summaries at once. */
  lemma Joined(a: seq<Event>, b: seq<Event>)
    ensures Clean(a + b) <==> Clean(a) && Clean(b)
    ensures Stopped(a + b) <==> Stopped(a) || Stopped(b)
    ensures TestsRun(a + b) == TestsRun(a) + TestsRun(b)
  {
    CleanOn(a, b);
    TestsRunOn(a, b);
  }

  lemma JoinedOne(a: seq<Event>, e: Event)
    ensures Clean(a + [e]) <==> Clean(a) && Good(e)
    ensures Stopped(a + [e]) <==> Stopped(a) || e == Asked(true)
    ensures TestsRun(a + [e]) == TestsRun(a) + if e.BeginTest? then [e.id] else []
  {
    Joined(a, [e]);
    TestsRunOf(e);
  }

  lemma {:induction false} SelectedFront(o: Options, tests: seq<string>, n: nat)
    requires n <= |tests|
    ensures Selected(o, tests[..n]) <= Selected(o, tests)
    ensures n < |tests| ==> Selected(o, tests[..n + 1]) ==
                            Selected(o, tests[..n]) + if IsSelected(o, tests[n]) then [tests[n]] else []
    decreases |tests|
  {
    if n < |tests| {
      assert tests[..n + 1][..n] == tests[..n];
      var front := tests[..|tests| - 1];
      SelectedFront(o, front, n);
      assert front[..n] == tests[..n];
    } else {
      assert tests[..n] == tests;
    }
  }

  /** What happens in later groups does not change what was asked of the first ones. */
  lemma {:induction false} PassTestsOn(c: Catalog, o: Options, did: seq<Event>, more: seq<Event>, n: nat, g: nat)
    requires OwnedBy(more, g) && n <= g
    ensures PassTests(c, o, did + more, n) == PassTests(c, o, did, n)
  {
    if n > 0 {
      PassTestsOn(c, o, did, more, n - 1, g);
      var e := Called(Some(n - 1), Setup, Refused);
      assert e in did + more <==> e in did || e in more;
      assert e !in more;
    }
  }

  lemma {:induction false} PassTestsGrow(c: Catalog, o: Options, did: seq<Event>, n: nat, m: nat)
    requires n <= m
    ensures PassTests(c, o, did, n) <= PassTests(c, o, did, m)
  {
    if n < m {
      PassTestsGrow(c, o, did, n, m - 1);
    }
  }

  // ---------------------------------------------------------------- where a run may stand

  function AfterHook(s: Stage, owner: Option<nat>, phase: Phase, answer: HookOutcome): Stage {
    Moved(Moved(Moved(s, BeginPhase(owner, phase)), Called(owner, phase, answer)), EndPhase)
  }

  /** Between groups, with the run going on. */
  predicate Between(c: Catalog, o: Options, s: Stage) {
    && s.armed && s.group.None? && s.open.None? && s.test.None? && !s.called
    && !s.hooks.runTornDown && !s.thrown && !s.safed && Ready(c.setup, s.hooks.runSetup, o)
  }

  /** In group `g`, whose tests may run. */
  predicate Inside(c: Catalog, o: Options, s: Stage, g: nat) {
    && s.armed && s.group == Some(g) && s.open.None? && s.test.None? && !s.called
    && !s.hooks.runTornDown && !s.hooks.groupTornDown && !s.thrown && !s.safed
    && Ready(c.setup, s.hooks.runSetup, o) && Ready(c.At(g).setup, s.hooks.groupSetup, o)
  }

  /** Where every way out of the selection leads: the run's teardown may run. */
  predicate Leaving(c: Catalog, o: Options, s: Stage) {
    && s.armed && s.open.None? && !s.called && !s.hooks.runTornDown && !s.safed
    && (s.test.Some? ==> s.thrown && s.ran.Some?) && (c.setup ==> s.hooks.runSetup.Some?)
    && (s.group.Some? ==> s.thrown && s.hooks.groupTornDown == c.At(s.group.value).teardown)
    && (s.group.None? ==> Explained(s.hooks.runSetup, o, s))
  }

  /** The same for a group's own. */
  predicate LeavingGroup(c: Catalog, o: Options, s: Stage, g: nat) {
    && s.armed && s.group == Some(g) && s.open.None? && !s.called
    && !s.hooks.runTornDown && !s.hooks.groupTornDown && !s.safed
    && (s.test.Some? ==> s.thrown && s.ran.Some?) && (c.At(g).setup ==> s.hooks.groupSetup.Some?)
    && (c.setup ==> s.hooks.runSetup.Some?) && Explained(s.hooks.groupSetup, o, s)
  }

  // ---------------------------------------------------------------- hooks

  lemma KeepsStopped(s: Stage, e: Event)
    requires !e.Asked?
    ensures Moved(s, e).stopped == s.stopped
  {
    hide Moved;
    StoppedStep(s, e);
  }

  lemma AsksStopped(s: Stage, stop: bool)
    ensures Moved(s, Asked(stop)).stopped == (s.stopped || stop)
  {
    StoppedStep(s, Asked(stop));
  }

  /** What the guard's `fail` posts. */
  function Failure(answer: HookOutcome): seq<Event> {
    if answer.Succeeded? then [] else [Noted(TeardownFailed)]
  }

  function SetupEvents(owner: Option<nat>, answer: HookOutcome): seq<Event> {
    [BeginPhase(owner, Setup), Called(owner, Setup, answer), EndPhase]
  }

  function TeardownEvents(owner: Option<nat>, answer: HookOutcome): seq<Event> {
    [BeginPhase(owner, Teardown), Called(owner, Teardown, answer)] + Failure(answer) + [EndPhase]
  }

  /** The steps of a hook, noted on the way or not, are allowed where its phase is. */
  lemma HookSteps(c: Catalog, o: Options, s: Stage, owner: Option<nat>, phase: Phase)
    requires !s.hooks.runTornDown && !s.safed
    requires if phase.Setup? then SetupAllowed(c, s, owner) else TeardownAllowed(c, o, s, owner)
    ensures
      var begun := Moved(s, BeginPhase(owner, phase));
      && Allowed(c, o, s, BeginPhase(owner, phase))
      && forall answer {:trigger Called(owner, phase, answer)} ::
           var called := Moved(begun, Called(owner, phase, answer));
           && Allowed(c, o, begun, Called(owner, phase, answer))
           && Allowed(c, o, called, EndPhase) && FailureAllowed(c, o, called)
  {
    forall answer {:trigger Called(owner, phase, answer)}
      ensures
        var begun := Moved(s, BeginPhase(owner, phase));
        var called := Moved(begun, Called(owner, phase, answer));
        && Allowed(c, o, begun, Called(owner, phase, answer))
        && Allowed(c, o, called, EndPhase) && FailureAllowed(c, o, called)
    {
      HookStep(c, o, s, owner, phase, answer);
    }
  }

  /** A failing teardown may be noted before its phase ends, and leaves the run where it would be anyway. */
  predicate FailureAllowed(c: Catalog, o: Options, s: Stage) {
    var noted := Moved(s, Noted(TeardownFailed));
    && Allowed(c, o, s, Noted(TeardownFailed)) && Allowed(c, o, noted, EndPhase)
    && Moved(noted, EndPhase) == Moved(s, EndPhase)
  }

  lemma HookStep(c: Catalog, o: Options, s: Stage, owner: Option<nat>, phase: Phase, answer: HookOutcome)
    requires !s.hooks.runTornDown && !s.safed
    requires if phase.Setup? then SetupAllowed(c, s, owner) else TeardownAllowed(c, o, s, owner)
    ensures
      var begun := Moved(s, BeginPhase(owner, phase));
      var called := Moved(begun, Called(owner, phase, answer));
      && Allowed(c, o, begun, Called(owner, phase, answer))
      && Allowed(c, o, called, EndPhase) && FailureAllowed(c, o, called)
  {
    BegunStep(s, owner, phase);
    hide SetupAllowed, TeardownAllowed, HookCalled, Allowed, Moved, FailureAllowed;
    var begun := Moved(s, BeginPhase(owner, phase));
    CalledStep(c, o, begun, owner, phase, answer);
    EndStep(c, o, Moved(begun, Called(owner, phase, answer)));
  }

  lemma BegunStep(s: Stage, owner: Option<nat>, phase: Phase)
    ensures
      var begun := Moved(s, BeginPhase(owner, phase));
      && begun.open == Some(Owned(owner, phase)) && !begun.called && !begun.cleared
      && begun.hooks.runTornDown == s.hooks.runTornDown && begun.safed == s.safed
  {}

  lemma CalledStep(c: Catalog, o: Options, s: Stage, owner: Option<nat>, phase: Phase, answer: HookOutcome)
    requires s.open == Some(Owned(owner, phase)) && !s.called && !s.cleared && !s.hooks.runTornDown && !s.safed
    ensures
      var called := Moved(s, Called(owner, phase, answer));
      && Allowed(c, o, s, Called(owner, phase, answer))
      && called.open == s.open && called.called && !called.cleared && !called.safed
  {}

  lemma EndStep(c: Catalog, o: Options, s: Stage)
    requires s.open.Some? && s.called && !s.cleared && !s.safed
    ensures Allowed(c, o, s, EndPhase) && FailureAllowed(c, o, s)
  {}

  // ---------------------------------------------------------------- what a stretch of a run amounts to

  predicate NoHooks(did: seq<Event>) {
    forall i :: 0 <= i < |did| ==> !did[i].Called?
  }

  /** What a stretch of a run makes of the verdict so far. */
  predicate Verdict(already: bool, allPassed: bool, threw: bool, did: seq<Event>) {
    if threw then !Clean(did) else allPassed <==> already && Clean(did)
  }

  /** The tests asked for were all run, or as many as went before a throw or a stop. */
  predicate Asks(wanted: seq<string>, did: seq<Event>, threw: bool) {
    TestsRun(did) <= wanted && (!threw && !Stopped(did) ==> TestsRun(did) == wanted)
  }

  lemma NothingDid()
    ensures Clean([]) && !Stopped([]) && TestsRun([]) == [] && NoHooks([])
  {}

  // ---------------------------------------------------------------- tests

  /** How a turn of a loop goes on: to the next, out of it on a stop, or out of it on an exception. */
  datatype Flow = GoOn | WindDown | Unwind

  /** What one turn did: its test, unless the poll before it said stop. */
  predicate TurnDid(id: string, flow: Flow, passed: bool, did: seq<Event>) {
    && NoHooks(did) && (TestsRun(did) == [id] || (TestsRun(did) == [] && flow.WindDown?))
    && (Stopped(did) <==> flow.WindDown?)
    && (Clean(did) <==> passed && !flow.Unwind?)
  }

  function CloseEvents(left: ScriptOutcome): seq<Event> {
    (if left.StopRequested? then [Asked(true)] else []) + [EndTest(left.ChecksPassed?)]
  }

  function TestEvents(id: string, left: ScriptOutcome): seq<Event> {
    [BeginTest(id), Ran(left)] + if left.ScriptThrew? then [] else CloseEvents(left)
  }

  function AfterCatch(s: Stage, left: ScriptOutcome): Stage {
    if left.StopRequested? then Moved(s, Asked(true)) else s
  }

  function AfterTest(s: Stage, id: string, left: ScriptOutcome): Stage {
    var ran := Moved(Moved(s, BeginTest(id)), Ran(left));
    if left.ScriptThrew? then ran else Moved(AfterCatch(ran, left), EndTest(left.ChecksPassed?))
  }

  lemma TestSteps(c: Catalog, o: Options, s: Stage, id: string, g: nat, left: ScriptOutcome)
    requires Inside(c, o, s, g) && s.cleared && !s.stopped && id in c.At(g).tests && IsSelected(o, id)
    ensures
      var s1 := Moved(s, BeginTest(id));
      var s2 := Moved(s1, Ran(left));
      && Allowed(c, o, s, BeginTest(id)) && Allowed(c, o, s1, Ran(left))
      && (left.StopRequested? ==> Allowed(c, o, s2, Asked(true)))
      && (!left.ScriptThrew? ==> Allowed(c, o, AfterCatch(s2, left), EndTest(left.ChecksPassed?)))
  {
    hide Ready, Selected;
  }

  lemma {:induction false} SelectsAny(o: Options, tests: seq<string>)
    ensures Selected(o, tests) != [] <==> exists i :: 0 <= i < |tests| && IsSelected(o, tests[i])
  {
    if tests != [] {
      SelectsAny(o, tests[..|tests| - 1]);
    }
  }

  lemma SelectsNothing(o: Options)
    ensures Selected(o, []) == []
  {}

  predicate LeftGroup(c: Catalog, o: Options, runSetup: Option<HookOutcome>, now: Stage, g: nat, threw: bool) {
    && LeavingGroup(c, o, now, g) && now.hooks.runSetup == runSetup
    && now.thrown == threw && (!threw ==> now.test.None?)
  }

  lemma InsideLeaves(c: Catalog, o: Options, s: Stage, g: nat)
    requires Inside(c, o, s, g)
    ensures LeftGroup(c, o, s.hooks.runSetup, s, g, false)
  {}

  lemma PollSteps(c: Catalog, o: Options, s: Stage, g: nat, stop: bool)
    requires Inside(c, o, s, g)
    ensures
      var now := Moved(s, Asked(stop));
      && Allowed(c, o, s, Asked(stop)) && Inside(c, o, now, g) && now.hooks.runSetup == s.hooks.runSetup
      && LeftGroup(c, o, s.hooks.runSetup, now, g, false) && now.stopped == (s.stopped || stop) && now.cleared == !stop
  {
    hide Selected;
  }

  lemma AfterTestStands(c: Catalog, o: Options, s: Stage, id: string, g: nat)
    requires Inside(c, o, s, g) && !s.stopped
    ensures forall left {:trigger AfterTest(s, id, left)} ::
              var now := AfterTest(s, id, left);
              && now.hooks.runSetup == s.hooks.runSetup && now.stopped == left.StopRequested?
              && LeftGroup(c, o, s.hooks.runSetup, now, g, left.ScriptThrew?)
              && (!left.ScriptThrew? ==> Inside(c, o, now, g))
  {}

  lemma PollDid(id: string)
    ensures TurnDid(id, WindDown, true, [Asked(true)])
  {
    TestsRunOf(Asked(true));
  }

  lemma TestDid(id: string, left: ScriptOutcome)
    ensures TurnDid(id, if left.ScriptThrew? then Unwind else if left.StopRequested? then WindDown else GoOn,
                    left.ChecksPassed?, [Asked(false)] + TestEvents(id, left))
  {
    hide Clean, Stopped;
    var did: seq<Event> := [Asked(false)];
    NothingDid();
    JoinedOne([], Asked(false));
    JoinedOne(did, BeginTest(id));
    JoinedOne(did + [BeginTest(id)], Ran(left));
    var begun := did + [BeginTest(id)] + [Ran(left)];
    if left.ScriptThrew? {
      assert did + TestEvents(id, left) == begun;
    } else if left.StopRequested? {
      JoinedOne(begun, Asked(true));
      JoinedOne(begun + [Asked(true)], EndTest(false));
      assert did + TestEvents(id, left) == begun + [Asked(true)] + [EndTest(false)];
    } else {
      JoinedOne(begun, EndTest(left.ChecksPassed?));
      assert did + TestEvents(id, left) == begun + [EndTest(left.ChecksPassed?)];
    }
  }

  lemma TurnJoined(did: seq<Event>, id: string, flow: Flow, passed: bool, more: seq<Event>)
    requires TurnDid(id, flow, passed, more) && NoHooks(did)
    ensures NoHooks(did + more)
    ensures TestsRun(did + more) == TestsRun(did) + [id] || (TestsRun(did + more) == TestsRun(did) && flow.WindDown?)
    ensures Stopped(did + more) <==> Stopped(did) || flow.WindDown?
    ensures Clean(did + more) <==> Clean(did) && passed && !flow.Unwind?
  {
    hide Clean, Stopped;
    Joined(did, more);
  }

  // ---------------------------------------------------------------- a group and its hooks

  /** A group just opened. */
  predicate Opened(c: Catalog, o: Options, s: Stage, g: nat) {
    && s.armed && s.group == Some(g) && s.hooks.groupSetup.None? && s.open.None? && s.test.None? && !s.called
    && !s.hooks.runTornDown && !s.hooks.groupTornDown && !s.thrown && !s.safed && !s.stopped
    && Ready(c.setup, s.hooks.runSetup, o)
  }

  lemma OpenedSteps(c: Catalog, o: Options, s: Stage, g: nat)
    requires Opened(c, o, s, g)
    ensures !s.hooks.runTornDown && !s.safed && !s.stopped && (c.At(g).setup ==> SetupAllowed(c, s, Some(g)))
    ensures !c.At(g).setup ==> Inside(c, o, s, g)
    ensures forall answer {:trigger AfterHook(s, Some(g), Setup, answer)} ::
              var now := AfterHook(s, Some(g), Setup, answer);
              && !now.stopped && now.hooks.runSetup == s.hooks.runSetup && !now.safed && !now.hooks.runTornDown
              && (c.At(g).setup && !answer.Refused? ==> LeftGroup(c, o, s.hooks.runSetup, now, g, answer.HookThrew?))
              && (c.At(g).setup && answer.Refused? ==> RefusalNoted(c, o, s.hooks.runSetup, now, g))
              && (c.At(g).setup && (answer.Succeeded? || (answer.Refused? && o.skeleton)) ==> Inside(c, o, now, g))
  {}

  /** What a group's setup left behind. */
  predicate SetupDone(o: Options, g: nat, did: seq<Event>, passed: bool, threw: bool) {
    && TestsRun(did) == [] && !Stopped(did) && OwnedBy(did, g) && (Clean(did) <==> passed)
    && (RefusedIn(o, did, g) <==> !passed && !threw && !o.skeleton) && (threw ==> !passed)
  }

  lemma SetupDid(o: Options, g: nat, did: seq<Event>, passed: bool, threw: bool)
    requires
      || (did == [] && passed && !threw)
      || exists answer :: did == SetupEvents(Some(g), answer) && passed == answer.Succeeded? && threw == answer.HookThrew?
    ensures SetupDone(o, g, did, passed, threw)
  {
    NothingDid();
    if did != [] {
      hide Clean, Stopped, TestsRun;
      var answer := did[1].answer;
      var e1, e2 := BeginPhase(Some(g), Setup), Called(Some(g), Setup, answer);
      JoinedOne([], e1);
      JoinedOne([e1], e2);
      JoinedOne([e1, e2], EndPhase);
      assert [] + [e1] == [e1] && [e1] + [e2] == [e1, e2] && [e1, e2] + [EndPhase] == did;
      assert did[1] == e2;
      assert Called(Some(g), Setup, Refused) in did <==> answer.Refused?;
    }
  }

  lemma ThrewDid(c: Catalog, o: Options, g: nat, did: seq<Event>, already: bool)
    requires SetupDone(o, g, did, false, true)
    ensures Asks(GroupTests(c, o, did, g), did, true) && Verdict(already, false, true, did) && OwnedBy(did, g)
    ensures !Stopped(did)
  {}

  lemma RefusedDid(c: Catalog, o: Options, g: nat, did: seq<Event>, already: bool)
    requires SetupDone(o, g, did, false, false) && !o.skeleton
    ensures
      var more := did + [Noted(SetupRefused)];
      && Asks(GroupTests(c, o, more, g), more, false) && Verdict(already, false, false, more) && OwnedBy(more, g)
      && !Stopped(more)
  {
    hide Clean, Stopped;
    JoinedOne(did, Noted(SetupRefused));
    assert RefusedIn(o, did + [Noted(SetupRefused)], g);
  }

  lemma TestsJoined(c: Catalog, o: Options, g: nat, did: seq<Event>, passed: bool,
                    already: bool, allPassed: bool, threw: bool, more: seq<Event>)
    requires SetupDone(o, g, did, passed, false) && (passed || o.skeleton) && NoHooks(more)
    requires Asks(Selected(o, c.At(g).tests), more, threw) && Verdict(already && passed, allPassed, threw, more)
    ensures Asks(GroupTests(c, o, did + more, g), did + more, threw) && Verdict(already, allPassed, threw, did + more)
    ensures OwnedBy(did + more, g) && (Stopped(did + more) <==> Stopped(more))
  {
    hide Clean, Stopped, TestsRun, Selected;
    Joined(did, more);
    assert RefusedIn(o, did + more, g) ==> RefusedIn(o, did, g) by {
      assert Called(Some(g), Setup, Refused) !in more;
    }
    assert [] + TestsRun(more) == TestsRun(more);
  }

  /** A group's setup refused, which a note may now say. */
  predicate RefusalNoted(c: Catalog, o: Options, runSetup: Option<HookOutcome>, s: Stage, g: nat) {
    var now := Moved(s, Noted(SetupRefused));
    Allowed(c, o, s, Noted(SetupRefused)) && LeftGroup(c, o, runSetup, now, g, false) && now.stopped == s.stopped
  }

  /** What a teardown left behind. */
  predicate TeardownDone(owner: Option<nat>, did: seq<Event>) {
    && TestsRun(did) == [] && !Stopped(did) && (Clean(did) <==> Undone(did))
    && (forall i :: 0 <= i < |did| ==> did[i].Called? ==> did[i].phase.Teardown? && did[i].owner == owner)
  }

  /** There was no teardown, or it succeeded. */
  predicate Undone(did: seq<Event>) {
    |did| > 1 && did[1].Called? ==> did[1].answer.Succeeded?
  }

  lemma NoTeardownDid(owner: Option<nat>)
    ensures TeardownDone(owner, []) && Undone([])
  {}

  lemma TeardownDid(owner: Option<nat>, answer: HookOutcome)
    ensures TeardownDone(owner, TeardownEvents(owner, answer))
    ensures Undone(TeardownEvents(owner, answer)) <==> answer.Succeeded?
  {
    TeardownSums(owner, answer);
    hide Clean, Stopped, TestsRun;
    var did := TeardownEvents(owner, answer);
    assert did[1] == Called(owner, Teardown, answer);
  }

  lemma TeardownSums(owner: Option<nat>, answer: HookOutcome)
    ensures
      var did := TeardownEvents(owner, answer);
      TestsRun(did) == [] && !Stopped(did) && (Clean(did) <==> answer.Succeeded?)
  {
    hide Clean, Stopped, TestsRun;
    var begun: seq<Event>, answered: seq<Event> := [BeginPhase(owner, Teardown)], [Called(owner, Teardown, answer)];
    NothingDid();
    JoinedOne([], begun[0]);
    JoinedOne(begun, answered[0]);
    JoinedOne(begun + answered, Noted(TeardownFailed));
    JoinedOne(begun + answered + Failure(answer), EndPhase);
    assert [] + begun == begun;
    assert answer.Succeeded? ==> begun + answered + Failure(answer) == begun + answered;
    assert TeardownEvents(owner, answer) == begun + answered + Failure(answer) + [EndPhase];
  }

  lemma OpensGroup(c: Catalog, o: Options, s: Stage, g: nat)
    requires Between(c, o, s) && s.cleared && !s.stopped && g < |c.groups| && Selected(o, c.groups[g].tests) != []
    ensures
      var now := Moved(s, BeginGroup(g));
      && Allowed(c, o, s, BeginGroup(g)) && Opened(c, o, now, g)
      && now.hooks.runSetup == s.hooks.runSetup && Ready(c.setup, s.hooks.runSetup, o)
  {
    hide Selected;
  }

  /** After a group's teardown the run is on its way out, or the group can end. */
  predicate GroupClosed(c: Catalog, o: Options, s: Stage, now: Stage, threw: bool) {
    && now.stopped == s.stopped
    && if threw then Leaving(c, o, now) && now.thrown
       else Allowed(c, o, now, EndGroup) && Between(c, o, Moved(now, EndGroup))
            && Moved(now, EndGroup).stopped == s.stopped
  }

  lemma ClosesGroup(c: Catalog, o: Options, setup: Option<HookOutcome>, s: Stage, g: nat, threw: bool)
    requires LeftGroup(c, o, setup, s, g, threw) && Ready(c.setup, setup, o)
    ensures !s.hooks.runTornDown && !s.safed && (c.At(g).teardown ==> TeardownAllowed(c, o, s, Some(g)))
    ensures !c.At(g).teardown ==> GroupClosed(c, o, s, s, threw)
    ensures c.At(g).teardown ==>
              forall answer {:trigger AfterHook(s, Some(g), Teardown, answer)} ::
                GroupClosed(c, o, s, AfterHook(s, Some(g), Teardown, answer), threw)
  {}

  lemma GroupJoined(c: Catalog, o: Options, g: nat, work: seq<Event>, down: seq<Event>,
                    already: bool, soFar: bool, threw: bool)
    requires Asks(GroupTests(c, o, work, g), work, threw) && Verdict(already, soFar, threw, work) && OwnedBy(work, g)
    requires TeardownDone(Some(g), down)
    ensures
      var did := [BeginGroup(g)] + work + down;
      && Asks(GroupTests(c, o, did, g), did, threw) && Verdict(already, soFar && Undone(down), threw, did)
      && OwnedBy(did, g) && (Stopped(did) <==> Stopped(work))
  {
    hide Clean, Stopped, TestsRun, Selected, Undone;
    var begun := [BeginGroup(g)];
    NothingDid();
    JoinedOne([], BeginGroup(g));
    assert [] + begun == begun;
    Joined(begun, work);
    Joined(begun + work, down);
    var setup := Called(Some(g), Setup, Refused);
    assert setup in begun + work + down <==> setup in work;
    assert TestsRun(begun + work + down) == TestsRun(work);
  }

  lemma GroupEnded(c: Catalog, o: Options, g: nat, did: seq<Event>, already: bool, allPassed: bool, threw: bool)
    requires Asks(GroupTests(c, o, did, g), did, threw) && Verdict(already, allPassed, threw, did) && OwnedBy(did, g)
    ensures
      var more := did + [EndGroup];
      && Asks(GroupTests(c, o, more, g), more, threw) && Verdict(already, allPassed, threw, more) && OwnedBy(more, g)
      && (Stopped(more) <==> Stopped(did))
  {
    hide Clean, Stopped, TestsRun, Selected;
    JoinedOne(did, EndGroup);
    var setup := Called(Some(g), Setup, Refused);
    assert setup in did + [EndGroup] <==> setup in did;
  }

  // ---------------------------------------------------------------- a pass

  /** Hooks of the groups before `g` only. */
  predicate Before(did: seq<Event>, g: nat) {
    forall i :: 0 <= i < |did| ==> did[i].Called? ==> did[i].owner.Some? && did[i].owner.value < g
  }

  predicate GroupHooks(did: seq<Event>) {
    forall i :: 0 <= i < |did| ==> did[i].Called? ==> did[i].owner.Some?
  }

  lemma NoPassYet(c: Catalog, o: Options)
    ensures Before([], 0)
    ensures Asks(PassTests(c, o, [], 0), [], false) && Verdict(true, true, false, []) && !Stopped([])
  {}

  lemma PassCut(c: Catalog, o: Options, did: seq<Event>, n: nat)
    requires n <= |c.groups| && Asks(PassTests(c, o, did, n), did, true) && Before(did, n)
    ensures Asks(PassTests(c, o, did, |c.groups|), did, true) && GroupHooks(did)
  {
    PassTestsGrow(c, o, did, n, |c.groups|);
  }

  lemma PassEnds(c: Catalog, o: Options, did: seq<Event>, n: nat)
    requires n <= |c.groups| && Asks(PassTests(c, o, did, n), did, false) && Before(did, n)
    ensures Stopped(did) ==> Asks(PassTests(c, o, did, |c.groups|), did, false)
    ensures GroupHooks(did)
  {
    PassTestsGrow(c, o, did, n, |c.groups|);
  }

  lemma NoGroupJoined(c: Catalog, o: Options, did: seq<Event>, g: nat)
    requires g < |c.groups| && Selected(o, c.groups[g].tests) == [] && Asks(PassTests(c, o, did, g), did, false)
    requires Before(did, g)
    ensures Asks(PassTests(c, o, did, g + 1), did, false) && Before(did, g + 1)
  {
    assert PassTests(c, o, did, g + 1) == PassTests(c, o, did, g) + [];
  }

  lemma PollsBetween(c: Catalog, o: Options, s: Stage, stop: bool)
    requires Between(c, o, s)
    ensures
      var now := Moved(s, Asked(stop));
      && Allowed(c, o, s, Asked(stop)) && Between(c, o, now)
      && now.stopped == (s.stopped || stop) && now.cleared == !stop
  {}

  lemma PollJoined(c: Catalog, o: Options, did: seq<Event>, g: nat, allPassed: bool, stop: bool)
    requires Asks(PassTests(c, o, did, g), did, false) && Verdict(true, allPassed, false, did) && Before(did, g)
    ensures
      var more := did + [Asked(stop)];
      && Before(more, g) && Asks(PassTests(c, o, more, g), more, false) && Verdict(true, allPassed, false, more)
      && (Stopped(more) <==> Stopped(did) || stop)
  {
    hide Clean, Stopped, TestsRun, PassTests;
    JoinedOne(did, Asked(stop));
    PassTestsOn(c, o, did, [Asked(stop)], g, g);
  }

  lemma PassJoined(c: Catalog, o: Options, did: seq<Event>, g: nat, allPassed: bool, passed: bool, threw: bool,
                   more: seq<Event>)
    requires Asks(PassTests(c, o, did, g), did, false) && Verdict(true, allPassed, false, did) && !Stopped(did)
    requires Asks(GroupTests(c, o, more, g), more, threw) && Verdict(true, passed, threw, more) && OwnedBy(more, g)
    requires Before(did, g)
    ensures
      var all := did + more;
      && Before(all, g + 1) && Asks(PassTests(c, o, all, g + 1), all, threw) && Verdict(true, allPassed && passed, threw, all)
      && (Stopped(all) <==> Stopped(more))
  {
    hide Clean, Stopped, TestsRun, Selected;
    Joined(did, more);
    PassTestsOn(c, o, did, more, g, g);
    assert Called(Some(g), Setup, Refused) in did + more <==> Called(Some(g), Setup, Refused) in more;
    assert PassTests(c, o, did + more, g + 1) == PassTests(c, o, did, g) + GroupTests(c, o, more, g);
  }

  // ---------------------------------------------------------------- the passes

  function Lead(o: Options): seq<Event> {
    [Asked(false)] + if PassCount(o) > 1 then [Noted(PassBegins)] else []
  }

  /** The passes made, each after the poll that let it begin. */
  function Woven(o: Options, passes: seq<seq<Event>>): seq<Event> {
    if passes == [] then [] else Woven(o, passes[..|passes| - 1]) + (Lead(o) + passes[|passes| - 1])
  }

  /** Every pass ran its whole selection, except that a stop may have cut the last one short. */
  predicate MadeSoFar(c: Catalog, o: Options, passes: seq<seq<Event>>, did: seq<Event>) {
    && did == Woven(o, passes) && (Stopped(did) ==> passes != [] && Stopped(passes[|passes| - 1]))
    && forall k :: 0 <= k < |passes| ==>
         && Asks(PassTests(c, o, passes[k], |c.groups|), passes[k], false)
         && (k < |passes| - 1 ==> !Stopped(passes[k])) && (o.untilFailure ==> Clean(passes[k]))
  }

  predicate FailedLast(o: Options, passes: seq<seq<Event>>) {
    o.untilFailure && passes != [] && !Clean(passes[|passes| - 1])
  }

  /** Why there was no further pass: a note on the failing one, the poll that said stop, or enough of them. */
  function WhyNoMore(o: Options, passes: seq<seq<Event>>): seq<Event> {
    if FailedLast(o, passes) then [Noted(FailedPassStops)]
    else if |passes| < PassCount(o) then [Asked(true)]
    else []
  }

  predicate PassesAsked(c: Catalog, o: Options, passes: seq<seq<Event>>, did: seq<Event>, threw: bool) {
    && |passes| <= PassCount(o)
    && (forall k :: 0 <= k < |passes| ==>
         && Asks(PassTests(c, o, passes[k], |c.groups|), passes[k], threw && k == |passes| - 1)
         && (k < |passes| - 1 ==> !Stopped(passes[k]) && (o.untilFailure ==> Clean(passes[k]))))
    && (!threw && !Stopped(did) ==> |passes| == PassCount(o) || FailedLast(o, passes))
  }

  /** The loop is over, and what it says of a stop yet to come. */
  predicate PassesOver(c: Catalog, o: Options, passes: seq<seq<Event>>, did: seq<Event>) {
    did == Woven(o, passes) + WhyNoMore(o, passes) && PassesAsked(c, o, passes, did, false)
  }

  /**
    The passes of a run: each but the last runs its selection in full, and passes if the run is to
    stop at a failure. The last may be cut short by a throw or a stop; failing those, there are as
    many as asked for, or the last is the first that failed. A stop is noted once, at the end.
  */
  predicate PassesMade(c: Catalog, o: Options, passes: seq<seq<Event>>, did: seq<Event>, threw: bool) {
    && PassesAsked(c, o, passes, did, threw)
    && did == if threw then Woven(o, passes)
              else Woven(o, passes) + WhyNoMore(o, passes) + if Stopped(did) then [Noted(StoppedEarly)] else []
  }

  lemma NotesBetween(c: Catalog, o: Options, s: Stage, kind: NoteKind)
    requires Between(c, o, s)
    ensures Allowed(c, o, s, Noted(kind)) && Between(c, o, Moved(s, Noted(kind)))
    ensures Moved(s, Noted(kind)).stopped == s.stopped
  {}

  lemma BetweenLeaves(c: Catalog, o: Options, s: Stage)
    requires Between(c, o, s)
    ensures Leaving(c, o, s) && !s.thrown
  {}

  lemma NothingMade(c: Catalog, o: Options)
    ensures MadeSoFar(c, o, [], []) && Clean([]) && !Stopped([]) && GroupHooks([])
  {}

  lemma LeadDid(o: Options)
    ensures Clean(Lead(o)) && !Stopped(Lead(o)) && TestsRun(Lead(o)) == []
  {
    NothingDid();
    JoinedOne([], Asked(false));
    JoinedOne([Asked(false)], Noted(PassBegins));
    assert [] + [Asked(false)] == [Asked(false)] && [Asked(false)] + [] == [Asked(false)];
  }

  lemma StopMade(c: Catalog, o: Options, passes: seq<seq<Event>>, did: seq<Event>)
    requires MadeSoFar(c, o, passes, did) && |passes| < PassCount(o)
    ensures
      var more := did + [Asked(true)];
      && PassesOver(c, o, passes, more) && Stopped(more) && (Clean(more) <==> Clean(did))
      && (GroupHooks(did) ==> GroupHooks(more))
  {
    hide Clean, Stopped, TestsRun, PassTests;
    JoinedOne(did, Asked(true));
  }

  lemma FailMade(c: Catalog, o: Options, passes: seq<seq<Event>>, did: seq<Event>)
    requires did == Woven(o, passes) && PassesAsked(c, o, passes, did, false) && FailedLast(o, passes)
    ensures
      var more := did + [Noted(FailedPassStops)];
      && PassesOver(c, o, passes, more) && (Stopped(more) <==> Stopped(did)) && (Clean(more) <==> Clean(did))
      && (GroupHooks(did) ==> GroupHooks(more))
  {
    hide Clean, Stopped, TestsRun, PassTests;
    JoinedOne(did, Noted(FailedPassStops));
  }

  lemma AllMade(c: Catalog, o: Options, passes: seq<seq<Event>>, did: seq<Event>)
    requires MadeSoFar(c, o, passes, did) && |passes| == PassCount(o)
    ensures PassesOver(c, o, passes, did)
  {
    hide Clean, Stopped, TestsRun, PassTests;
    assert did + [] == did;
  }

  lemma OverMade(c: Catalog, o: Options, passes: seq<seq<Event>>, did: seq<Event>)
    requires PassesOver(c, o, passes, did)
    ensures !Stopped(did) ==> PassesMade(c, o, passes, did, false)
    ensures
      var more := did + [Noted(StoppedEarly)];
      && (Stopped(did) ==> PassesMade(c, o, passes, more, false)) && (Stopped(more) <==> Stopped(did))
      && (GroupHooks(did) ==> GroupHooks(more))
  {
    hide Clean, Stopped, TestsRun, PassTests, WhyNoMore;
    JoinedOne(did, Noted(StoppedEarly));
    assert did + [] == did;
  }

  lemma PassMade(c: Catalog, o: Options, passes: seq<seq<Event>>, did: seq<Event>, pass: seq<Event>,
                 passed: bool, threw: bool)
    requires MadeSoFar(c, o, passes, did) && !Stopped(did) && |passes| < PassCount(o)
    requires Asks(PassTests(c, o, pass, |c.groups|), pass, threw) && Verdict(true, passed, threw, pass)
    ensures
      var all, more := did + (Lead(o) + pass), passes + [pass];
      && (GroupHooks(did) && GroupHooks(pass) ==> GroupHooks(all))
      && (Stopped(all) <==> Stopped(pass)) && (if threw then !Clean(all) else Clean(all) <==> Clean(did) && passed)
      && (threw ==> PassesMade(c, o, more, all, true))
      && (!threw && !passed && o.untilFailure ==>
            all == Woven(o, more) && PassesAsked(c, o, more, all, false) && FailedLast(o, more))
      && (!threw && (passed || !o.untilFailure) ==> MadeSoFar(c, o, more, all))
  {
    hide Clean, TestsRun, PassTests;
    LeadDid(o);
    Joined(Lead(o), pass);
    Joined(did, Lead(o) + pass);
    var more := passes + [pass];
    assert more[..|more| - 1] == passes;
  }

  /** The tests of all passes, in order. */
  function AllTests(passes: seq<seq<Event>>): seq<string> {
    if passes == [] then [] else AllTests(passes[..|passes| - 1]) + TestsRun(passes[|passes| - 1])
  }

  lemma {:induction false} WovenTests(o: Options, passes: seq<seq<Event>>)
    ensures TestsRun(Woven(o, passes)) == AllTests(passes)
  {
    hide TestsRun, Lead;
    NothingDid();
    if passes != [] {
      var front, last := passes[..|passes| - 1], passes[|passes| - 1];
      WovenTests(o, front);
      LeadDid(o);
      Joined(Lead(o), last);
      Joined(Woven(o, front), Lead(o) + last);
      assert [] + TestsRun(last) == TestsRun(last);
    }
  }

  /** What a run runs is its passes' tests, pass after pass, and nothing else. */
  lemma PassesRunTheirTests(c: Catalog, o: Options, passes: seq<seq<Event>>, did: seq<Event>, threw: bool)
    requires PassesMade(c, o, passes, did, threw)
    ensures TestsRun(did) == AllTests(passes)
  {
    WovenTests(o, passes);
    if !threw {
      NoTests(WhyNoMore(o, passes));
      NoTests(if Stopped(did) then [Noted(StoppedEarly)] else []);
      hide TestsRun, Woven, AllTests, PassesAsked, WhyNoMore;
      Joined(Woven(o, passes), WhyNoMore(o, passes));
      Joined(Woven(o, passes) + WhyNoMore(o, passes), if Stopped(did) then [Noted(StoppedEarly)] else []);
    }
  }

  lemma NoTests(did: seq<Event>)
    requires |did| <= 1 && forall i :: 0 <= i < |did| ==> !did[i].BeginTest?
    ensures TestsRun(did) == []
  {
    if did != [] {
      TestsRunOf(did[0]);
      assert did == [did[0]];
    }
  }

  // ---------------------------------------------------------------- the run

  /** A run's trace: what came before its passes, the passes, and what came after them. */
  datatype Run = Run(before: seq<Event>, did: seq<Event>, passes: seq<seq<Event>>, after: seq<Event>) {
    function Trace(): seq<Event> { before + did + after }
  }

  /** RUN_SETUP stopped everything: it threw, or refused with nothing to override it. */
  predicate Gated(o: Options, did: seq<Event>) {
    || Called(None, Setup, HookThrew) in did
    || (Called(None, Setup, Refused) in did && !o.skeleton)
  }

  /** Outside the passes: no test, no stop honoured, and no hook but the run's own. */
  predicate Outside(did: seq<Event>) {
    TestsRun(did) == [] && !Stopped(did) && forall i :: 0 <= i < |did| && did[i].Called? ==> did[i].owner.None?
  }

  /**
    What a run did, as a partition of its trace: nothing between the hooks when a setup failed it,
    and otherwise its passes.
  */
  predicate RunDid(c: Catalog, o: Options, did: seq<Event>, run: Run, threw: bool) {
    && did == run.Trace() && Outside(run.before) && Outside(run.after) && GroupHooks(run.did)
    && if Gated(o, did) then run.did == [] && run.passes == [] else PassesMade(c, o, run.passes, run.did, threw)
  }

  /** Every selected test of the first `n` groups, in catalog order. */
  function SelectionOf(c: Catalog, o: Options, n: nat): seq<string> {
    if n == 0 then [] else SelectionOf(c, o, n - 1) + Selected(o, c.At(n - 1).tests)
  }

  function Times(n: nat, tests: seq<string>): seq<string> {
    if n == 0 then [] else Times(n - 1, tests) + tests
  }

  /** What a run ran is what its passes ran. */
  lemma RunTestsAreThePasses(c: Catalog, o: Options, did: seq<Event>, run: Run, threw: bool)
    requires RunDid(c, o, did, run, threw)
    ensures TestsRun(did) == AllTests(run.passes) && (Stopped(did) <==> Stopped(run.did))
  {
    if !Gated(o, did) {
      PassesRunTheirTests(c, o, run.passes, run.did, threw);
    } else {
      NothingDid();
    }
    hide TestsRun, Stopped, Clean, PassesMade;
    Joined(run.before, run.did);
    Joined(run.before + run.did, run.after);
    assert [] + TestsRun(run.did) + [] == TestsRun(run.did);
  }

  lemma {:induction false} UnrefusedPass(c: Catalog, o: Options, pass: seq<Event>, n: nat)
    requires Clean(pass)
    ensures PassTests(c, o, pass, n) == SelectionOf(c, o, n)
  {
    if n > 0 {
      UnrefusedPass(c, o, pass, n - 1);
      assert Called(Some(n - 1), Setup, Refused) !in pass;
    }
  }

  lemma {:induction false} PassesAreClean(o: Options, passes: seq<seq<Event>>)
    requires Clean(Woven(o, passes))
    ensures forall k :: 0 <= k < |passes| ==> Clean(passes[k])
  {
    if passes != [] {
      hide Clean;
      var front, last := passes[..|passes| - 1], passes[|passes| - 1];
      CleanOn(Woven(o, front), Lead(o) + last);
      CleanOn(Lead(o), last);
      PassesAreClean(o, front);
      assert forall k :: 0 <= k < |front| ==> passes[k] == front[k];
    }
  }

  lemma {:induction false} EqualPasses(passes: seq<seq<Event>>, tests: seq<string>)
    requires forall k :: 0 <= k < |passes| ==> TestsRun(passes[k]) == tests
    ensures AllTests(passes) == Times(|passes|, tests)
  {
    hide TestsRun;
    if passes != [] {
      EqualPasses(passes[..|passes| - 1], tests);
    }
  }

  lemma Ungated(o: Options, did: seq<Event>)
    requires Clean(did)
    ensures !Gated(o, did)
  {
    assert forall a :: Called(None, Setup, a) in did ==> a.Succeeded?;
  }

  /** A run that neither failed nor stopped ran its whole selection, in catalog order, as often as asked. */
  lemma CleanRunRanEverything(c: Catalog, o: Options, did: seq<Event>, run: Run)
    requires RunDid(c, o, did, run, false) && Clean(did) && !Stopped(did)
    ensures |run.passes| == PassCount(o)
    ensures TestsRun(did) == Times(PassCount(o), SelectionOf(c, o, |c.groups|))
  {
    RunTestsAreThePasses(c, o, did, run, false);
    Ungated(o, did);
    hide Clean, Stopped, TestsRun, PassTests, Outside, GroupHooks, Gated, Woven, WhyNoMore;
    CleanOn(run.before, run.did);
    CleanOn(run.before + run.did, run.after);
    UnstoppedMade(c, o, run.passes, run.did);
    PassesAreClean(o, run.passes);
    forall k | 0 <= k < |run.passes| ensures TestsRun(run.passes[k]) == SelectionOf(c, o, |c.groups|) {
      UnrefusedPass(c, o, run.passes[k], |c.groups|);
    }
    EqualPasses(run.passes, SelectionOf(c, o, |c.groups|));
  }

  /** Passes that were not stopped were each not stopped, and are clean if the whole is. */
  lemma UnstoppedMade(c: Catalog, o: Options, passes: seq<seq<Event>>, did: seq<Event>)
    requires PassesMade(c, o, passes, did, false) && !Stopped(did)
    ensures forall k :: 0 <= k < |passes| ==> !Stopped(passes[k])
    ensures Clean(did) ==> Clean(Woven(o, passes))
  {
    var woven, why := Woven(o, passes), WhyNoMore(o, passes);
    hide Stopped, Clean, TestsRun, WhyNoMore;
    assert did == woven + why by { assert woven + why + [] == woven + why; }
    CleanOn(woven, why);
    if passes != [] {
      var front, last := passes[..|passes| - 1], passes[|passes| - 1];
      CleanOn(Woven(o, front), Lead(o) + last);
      CleanOn(Lead(o), last);
    }
  }

  lemma StartSteps(c: Catalog, o: Options)
    ensures Allowed(c, o, START, Armed) && !Moved(START, Armed).safed && !START.stopped
  {}

  lemma ArmedSteps(c: Catalog, o: Options)
    ensures
      var s := Moved(START, Armed);
      && !s.hooks.runTornDown && !s.safed && !s.stopped && (c.setup ==> SetupAllowed(c, s, None))
      && (!c.setup ==> Between(c, o, s))
      && forall answer {:trigger AfterHook(s, None, Setup, answer)} ::
           var now := AfterHook(s, None, Setup, answer);
           && !now.stopped && !now.safed && !now.hooks.runTornDown && now.thrown == answer.HookThrew?
           && (c.setup && !answer.Refused? ==> Leaving(c, o, now))
           && (c.setup && answer.Refused? ==>
                 && Allowed(c, o, now, Noted(SetupRefused)) && Leaving(c, o, Moved(now, Noted(SetupRefused)))
                 && !Moved(now, Noted(SetupRefused)).thrown)
           && (c.setup && (answer.Succeeded? || (answer.Refused? && o.skeleton)) ==> Between(c, o, now))
  {}

  /** What RUN_SETUP left behind. */
  predicate RunSetupDone(o: Options, did: seq<Event>, passed: bool, threw: bool) {
    && Outside(did) && (Clean(did) <==> passed) && (threw ==> !passed)
    && (Gated(o, did) <==> threw || (!passed && !o.skeleton))
  }

  lemma RunSetupDid(o: Options, did: seq<Event>, passed: bool, threw: bool)
    requires
      || (did == [] && passed && !threw)
      || exists answer :: did == SetupEvents(None, answer) && passed == answer.Succeeded? && threw == answer.HookThrew?
    ensures RunSetupDone(o, did, passed, threw)
  {
    NothingDid();
    if did != [] {
      hide Clean, Stopped, TestsRun;
      var answer := did[1].answer;
      var e1, e2 := BeginPhase(None, Setup), Called(None, Setup, answer);
      JoinedOne([], e1);
      JoinedOne([e1], e2);
      JoinedOne([e1, e2], EndPhase);
      assert [] + [e1] == [e1] && [e1] + [e2] == [e1, e2] && [e1, e2] + [EndPhase] == did;
      assert did[1] == e2;
      assert Called(None, Setup, Refused) in did <==> answer.Refused?;
      assert Called(None, Setup, HookThrew) in did <==> answer.HookThrew?;
    }
  }

  lemma GatedDid(c: Catalog, o: Options, did: seq<Event>, passed: bool, threw: bool)
    requires RunSetupDone(o, did, passed, threw) && (threw || (!passed && !o.skeleton))
    ensures RunDid(c, o, did, Run(did, [], [], []), threw) && !Clean(did)
    ensures
      var noted := did + [Noted(SetupRefused)];
      RunDid(c, o, noted, Run(noted, [], [], []), threw) && !Clean(noted)
  {
    hide Clean, Stopped, TestsRun;
    NothingDid();
    JoinedOne(did, Noted(SetupRefused));
    assert did == did + [] + [];
    var noted := did + [Noted(SetupRefused)];
    assert noted == noted + [] + [];
  }

  lemma PassesDid(c: Catalog, o: Options, did: seq<Event>, passed: bool, more: seq<Event>, passes: seq<seq<Event>>,
                  threw: bool)
    requires RunSetupDone(o, did, passed, false) && (passed || o.skeleton)
    requires PassesMade(c, o, passes, more, threw) && GroupHooks(more)
    ensures RunDid(c, o, did + more, Run(did, more, passes, []), threw)
    ensures Clean(did + more) <==> passed && Clean(more)
    ensures Stopped(did + more) <==> Stopped(more)
  {
    hide Clean, Stopped, TestsRun, PassesMade;
    NothingDid();
    Joined(did, more);
    assert forall a :: Called(None, Setup, a) !in more;
    assert forall a :: Called(None, Setup, a) in did + more <==> Called(None, Setup, a) in did;
    assert did + more == did + more + [];
  }

  /** Where a run stands when only its safing is left. */
  predicate Settled(c: Catalog, o: Options, s: Stage) {
    && s.open.None? && s.armed && s.hooks.runTornDown == c.teardown
    && (s.group.Some? ==> s.hooks.groupTornDown == c.At(s.group.value).teardown)
    && (s.safed || s.thrown || c.teardown || Explained(s.hooks.runSetup, o, s))
  }

  predicate RunOver(c: Catalog, o: Options, s: Stage, threw: bool) {
    Settled(c, o, s) && !s.safed && s.thrown == threw
  }

  lemma LeavesOver(c: Catalog, o: Options, s: Stage)
    requires Leaving(c, o, s)
    ensures !s.hooks.runTornDown && !s.safed && (c.teardown ==> TeardownAllowed(c, o, s, None))
    ensures !c.teardown ==> RunOver(c, o, s, s.thrown)
    ensures c.teardown ==>
              forall answer {:trigger AfterHook(s, None, Teardown, answer)} ::
                RunOver(c, o, AfterHook(s, None, Teardown, answer), s.thrown)
  {}

  /** The run with more of its trace around it. */
  function Around(run: Run, first: seq<Event>, last: seq<Event>): Run {
    run.(before := first + run.before, after := run.after + last)
  }

  lemma RunGrows(c: Catalog, o: Options, did: seq<Event>, run: Run, threw: bool, first: seq<Event>, last: seq<Event>)
    requires RunDid(c, o, did, run, threw) && Outside(first) && Outside(last)
    requires forall a :: Called(None, Setup, a) !in first && Called(None, Setup, a) !in last
    ensures RunDid(c, o, first + did + last, Around(run, first, last), threw)
    ensures Clean(first + did + last) <==> Clean(first) && Clean(did) && Clean(last)
    ensures Stopped(first + did + last) <==> Stopped(did)
  {
    hide Clean, Stopped, TestsRun, PassesMade;
    Joined(first, did);
    Joined(first + did, last);
    Joined(first, run.before);
    Joined(run.after, last);
    assert forall a :: Called(None, Setup, a) in first + did + last <==> Called(None, Setup, a) in did;
    assert first + did + last == Around(run, first, last).Trace();
  }

  lemma RunJoined(c: Catalog, o: Options, did: seq<Event>, run: Run, threw: bool, down: seq<Event>)
    requires RunDid(c, o, did, run, threw) && TeardownDone(None, down)
    ensures
      var all := [Armed] + did + down;
      && RunDid(c, o, all, Around(run, [Armed], down), threw)
      && (Clean(all) <==> Clean(did) && Undone(down)) && (Stopped(all) <==> Stopped(did))
  {
    hide Clean, Stopped, TestsRun, RunDid, Undone;
    NothingDid();
    JoinedOne([], Armed);
    assert [] + [Armed] == [Armed];
    RunGrows(c, o, did, run, threw, [Armed], down);
  }

  /** What may follow a run that is over: a note, the safing, the verdict. */
  lemma EndSteps(c: Catalog, o: Options, s: Stage, e: Event)
    requires s == START || Settled(c, o, s) || (s.safed && !s.armed)
    requires
      || (e == Noted(Uncaught) && !s.safed && s.thrown)
      || (e.Safed? && !s.safed && (s.thrown ==> s.note == Some(Uncaught)))
      || (e.Ended? && s.safed)
    ensures Allowed(c, o, s, e) && Moved(s, e).thrown == s.thrown && Moved(s, e).safed == (s.safed || e.Safed?)
    ensures Settled(c, o, s) ==> Settled(c, o, Moved(s, e))
    ensures !s.armed ==> !Moved(s, e).armed
    ensures e.Noted? ==> Moved(s, e).note == Some(e.kind)
  {}

  lemma SettledIsArmed(c: Catalog, o: Options, s: Stage)
    ensures Settled(c, o, s) ==> s.armed
  {}

  lemma EndJoined(c: Catalog, o: Options, did: seq<Event>, run: Run, threw: bool, e: Event)
    requires e.Noted? || e.Safed? || e.Ended?
    ensures (Clean(did + [e]) <==> Clean(did)) && (Stopped(did + [e]) <==> Stopped(did))
    ensures RunDid(c, o, did, run, threw) ==> RunDid(c, o, did + [e], Around(run, [], [e]), threw)
  {
    hide Clean, Stopped, TestsRun, RunDid;
    JoinedOne(did, e);
    if RunDid(c, o, did, run, threw) {
      NothingDid();
      JoinedOne([], e);
      assert [] + [e] == [e] && [] + did + [e] == did + [e];
      RunGrows(c, o, did, run, threw, [], [e]);
    }
  }

  /** What every run ends with. */
  function Closed(threw: bool, verdict: bool): seq<Event> {
    (if threw then [Noted(Uncaught)] else []) + [Safed] + [Ended(verdict)]
  }

  lemma ClosedEnds(over: seq<Event>, threw: bool, verdict: bool)
    ensures
      var all := over + Closed(threw, verdict);
      && |all| >= 2 && all[|all| - 2..] == [Safed, Ended(verdict)]
      && (threw ==> |all| >= 3 && all[|all| - 3] == Noted(Uncaught))
      && (over == [] && !threw ==> all == [Safed, Ended(verdict)])
  {}

  lemma NoTestInSafing(verdict: bool)
    ensures TestsRun([Safed, Ended(verdict)]) == []
  {
    NothingDid();
    JoinedOne([], Safed);
    JoinedOne([Safed], Ended(verdict));
    assert [] + [Safed] == [Safed] && [Safed] + [Ended(verdict)] == [Safed, Ended(verdict)];
  }

  lemma SettledRun(c: Catalog, o: Options, trace: seq<Event>)
    requires Legal(c, o, trace) && StageOf(trace).safed
    requires Settled(c, o, StageOf(trace)) || exists verdict :: trace == [Safed, Ended(verdict)]
    ensures RunTeardowns(trace) == if StageOf(trace).armed && c.teardown then 1 else 0
    ensures GroupTeardowns(trace) == OwedTeardowns(c, trace) && Depth(trace) == 0
  {
    hide Legal, StageOf, Moved;
    PhasesNeverOverlap(c, o, trace);
    GroupTeardownsPaid(c, o, trace);
    RunTeardownsCounted(c, o, trace);
    SafedMeansTornDown(c, o, trace);
    if verdict :| trace == [Safed, Ended(verdict)] {
      SafedAlone(verdict);
    }
  }

  lemma SafedAlone(verdict: bool)
    ensures StageOf([Safed, Ended(verdict)]) == START.(safed := true)
  {
    var trace := [Safed, Ended(verdict)];
    assert trace[..1] == [Safed] && [Safed][..0] == [];
  }
}
