/**
  What a run may do, in order (framework/runner/src/main.cpp): the events a run leaves behind, and
  the rules its brackets keep on every way out of it, exceptions and operator stops included.
*/
module RunTrace {
  import opened Optional

  datatype Phase = Setup | Teardown

  datatype HookOutcome = Succeeded | Refused | HookThrew

  /** What came of a script: the verdict of its checks, or how it was left. */
  datatype ScriptOutcome = ChecksPassed | CheckFailed | ScriptThrew | StopRequested

  datatype NoteKind = SetupRefused | TeardownFailed | PassBegins | FailedPassStops | StoppedEarly | Uncaught

  /** `owner` is the group a hook belongs to, or None for the run's own. */
  datatype Event =
    | Armed                       // the run's teardown guard is in place
    | Asked(stop: bool)           // stopNow, and its answer
    | BeginGroup(group: nat)
    | EndGroup
    | BeginTest(id: string)
    | Ran(left: ScriptOutcome)
    | EndTest(passed: bool)
    | BeginPhase(owner: Option<nat>, phase: Phase)
    | Called(owner: Option<nat>, phase: Phase, answer: HookOutcome)
    | EndPhase
    | Noted(kind: NoteKind)
    | Safed                       // the rig's unconditional safing
    | Ended(verdict: bool)

  datatype Group = Group(name: string, setup: bool, teardown: bool, tests: seq<string>)

  datatype Catalog = Catalog(groups: seq<Group>, setup: bool, teardown: bool)
  {
    function At(g: nat): Group { if g < |groups| then groups[g] else Group("", false, false, []) }
  }

  datatype Options = Options(selection: seq<string>, repeat: Option<nat>, untilFailure: bool, skeleton: bool)

  // ---------------------------------------------------------------- the selection

  predicate IsSelected(o: Options, id: string) {
    o.selection == [] || id in o.selection
  }

  function Selected(o: Options, tests: seq<string>): (r: seq<string>)
    ensures forall id :: id in r <==> id in tests && IsSelected(o, id)
  {
    if tests == [] then []
    else
      var before, last := Selected(o, tests[..|tests| - 1]), tests[|tests| - 1];
      if IsSelected(o, last) then before + [last] else before
  }

  // ---------------------------------------------------------------- where a run stands

  datatype Owned = Owned(owner: Option<nat>, phase: Phase)

  /** What the run's hooks have answered so far, and those of the group that is open. */
  datatype Hooks = Hooks(
    runSetup: Option<HookOutcome>, runTornDown: bool, groupSetup: Option<HookOutcome>, groupTornDown: bool)

  datatype Stage = Stage(
    armed: bool, hooks: Hooks, group: Option<nat>, test: Option<string>, ran: Option<ScriptOutcome>,
    open: Option<Owned>, called: bool,
    cleared: bool,                // the last event was a poll answering no
    note: Option<NoteKind>,       // the last event, if it was a note
    stopped: bool, thrown: bool, safed: bool)

  const START: Stage :=
    Stage(false, Hooks(None, false, None, false), None, None, None, None, false, false, None, false, false, false)

  /** A setup that was not declared, or that succeeded, or whose refusal a skeleton run overrides. */
  predicate Ready(declared: bool, answer: Option<HookOutcome>, o: Options) {
    if !declared then answer.None?
    else answer.Some? && (answer.value.Succeeded? || (answer.value.Refused? && o.skeleton))
  }

  predicate SetupAllowed(c: Catalog, s: Stage, owner: Option<nat>) {
    && s.armed && s.open.None? && s.test.None? && !s.stopped && !s.thrown
    && match owner
       case None => c.setup && s.hooks.runSetup.None? && s.group.None?
       case Some(g) => s.group == owner && c.At(g).setup && s.hooks.groupSetup.None? && !s.hooks.groupTornDown
  }

  /** A setup that refused, with nothing to override it, has just been noted. */
  predicate Explained(answer: Option<HookOutcome>, o: Options, s: Stage) {
    answer == Some(Refused) && !o.skeleton ==> s.note == Some(SetupRefused)
  }

  predicate TeardownAllowed(c: Catalog, o: Options, s: Stage, owner: Option<nat>) {
    && s.armed && s.open.None? && (s.test.Some? ==> s.thrown && s.ran.Some?)
    && match owner
       case None =>
         && (s.group.None? ==> Explained(s.hooks.runSetup, o, s))
         && c.teardown && !s.hooks.runTornDown && (c.setup ==> s.hooks.runSetup.Some?)
         && (s.group.Some? ==> s.thrown && s.hooks.groupTornDown == c.At(s.group.value).teardown)
       case Some(g) =>
         && s.group == owner && c.At(g).teardown && !s.hooks.groupTornDown && (c.At(g).setup ==> s.hooks.groupSetup.Some?)
         && Explained(s.hooks.groupSetup, o, s)
  }

  /** Nothing follows the run's teardown but its own ending, what is noted, and the safing. */
  predicate Closing(e: Event) {
    e.Noted? || e.EndPhase? || e.Safed? || e.Ended?
  }

  predicate Allowed(c: Catalog, o: Options, s: Stage, e: Event) {
    && (s.hooks.runTornDown ==> Closing(e))
    && (s.safed ==> e.Ended?)
    && match e
       case Armed => s == START
       case Asked(_) =>
         && s.armed && s.open.None? && !s.thrown && (s.group.Some? ==> !s.hooks.groupTornDown)
         && (s.test.Some? ==> s.ran == Some(StopRequested))
       case BeginGroup(g) =>
         && s.cleared && !s.stopped && !s.thrown && s.group.None? && s.open.None?
         && g < |c.groups| && Selected(o, c.groups[g].tests) != [] && Ready(c.setup, s.hooks.runSetup, o)
       case EndGroup =>
         && s.group.Some? && s.open.None? && s.test.None? && !s.thrown
         && s.hooks.groupTornDown == c.At(s.group.value).teardown
         && (s.hooks.groupTornDown || Explained(s.hooks.groupSetup, o, s))
       case BeginTest(id) =>
         && s.cleared && !s.stopped && !s.thrown && s.group.Some? && s.open.None? && s.test.None? && !s.hooks.groupTornDown
         && id in c.At(s.group.value).tests && IsSelected(o, id) && Ready(c.At(s.group.value).setup, s.hooks.groupSetup, o)
       case Ran(_) => s.test.Some? && s.ran.None? && s.open.None?
       case EndTest(passed) =>
         s.test.Some? && s.ran.Some? && !s.thrown && s.open.None? && (passed <==> s.ran.value.ChecksPassed?)
       case BeginPhase(owner, phase) => if phase.Setup? then SetupAllowed(c, s, owner) else TeardownAllowed(c, o, s, owner)
       case Called(owner, phase, _) => s.open == Some(Owned(owner, phase)) && !s.called
       case EndPhase => s.open.Some? && s.called
       case Noted(_) => true
       case Safed =>
         && s.open.None? && (s.armed ==> s.hooks.runTornDown == c.teardown)
         && (if s.thrown then s.note == Some(Uncaught) else c.teardown || Explained(s.hooks.runSetup, o, s))
       case Ended(_) => s.safed
  }

  function Answered(h: Hooks, owner: Option<nat>, phase: Phase, answer: HookOutcome): Hooks {
    if phase.Setup? then
      if owner.None? then h.(runSetup := Some(answer)) else h.(groupSetup := Some(answer))
    else if owner.None? then h.(runTornDown := true)
    else h.(groupTornDown := true)
  }

  /** Only a setup's exception goes any further: nothing escapes a teardown. */
  function HookCalled(s: Stage, owner: Option<nat>, phase: Phase, answer: HookOutcome): Stage {
    s.(hooks := Answered(s.hooks, owner, phase, answer),
       thrown := s.thrown || (phase.Setup? && answer.HookThrew?), called := true)
  }

  function Moved(s: Stage, e: Event): Stage {
    Advanced(s, e).(cleared := e == Asked(false), note := if e.Noted? then Some(e.kind) else None)
  }

  function Advanced(s: Stage, e: Event): Stage {
    match e
    case Armed => s.(armed := true)
    case Asked(stop) => s.(stopped := s.stopped || stop)
    case BeginGroup(g) => s.(group := Some(g), hooks := s.hooks.(groupSetup := None, groupTornDown := false))
    case EndGroup => s.(group := None)
    case BeginTest(id) => s.(test := Some(id), ran := None)
    case Ran(left) => s.(ran := Some(left), thrown := s.thrown || left.ScriptThrew?)
    case EndTest(_) => s.(test := None, ran := None)
    case BeginPhase(owner, phase) => s.(open := Some(Owned(owner, phase)), called := false)
    case Called(owner, phase, answer) => HookCalled(s, owner, phase, answer)
    case EndPhase => s.(open := None, called := false)
    case Noted(_) => s
    case Safed => s.(safed := true)
    case Ended(_) => s
  }

  function StageOf(trace: seq<Event>): Stage {
    if trace == [] then START else Moved(StageOf(trace[..|trace| - 1]), trace[|trace| - 1])
  }

  predicate Legal(c: Catalog, o: Options, trace: seq<Event>) {
    trace == [] ||
    (Legal(c, o, trace[..|trace| - 1]) && Allowed(c, o, StageOf(trace[..|trace| - 1]), trace[|trace| - 1]))
  }

  // ---------------------------------------------------------------- reading a trace

  predicate Good(e: Event) {
    && (e.Called? ==> e.answer.Succeeded?) && (e.Ran? ==> e.left.ChecksPassed?)
  }

  /** Every hook succeeded and every test that ran passed. */
  predicate Clean(trace: seq<Event>) {
    forall i :: 0 <= i < |trace| ==> Good(trace[i])
  }

  predicate Stopped(trace: seq<Event>) {
    Asked(true) in trace
  }

  /** The tests a stretch of a run began, in order. */
  function TestsRun(trace: seq<Event>): seq<string> {
    if trace == [] then []
    else
      var before, last := TestsRun(trace[..|trace| - 1]), trace[|trace| - 1];
      if last.BeginTest? then before + [last.id] else before
  }

  lemma {:induction false} TestsRunOn(a: seq<Event>, b: seq<Event>)
    ensures TestsRun(a + b) == TestsRun(a) + TestsRun(b)
  {
    if b == [] {
      assert a + b == a;
    } else {
      var less := b[..|b| - 1];
      TestsRunOn(a, less);
      assert (a + b)[..|a + b| - 1] == a + less;
      assert TestsRun(a) + (TestsRun(less) + [""]) == (TestsRun(a) + TestsRun(less)) + [""];
    }
  }

  // ---------------------------------------------------------------- what legality means

  lemma LastStep(c: Catalog, o: Options, trace: seq<Event>)
    requires Legal(c, o, trace) && trace != []
    ensures
      var front, last := trace[..|trace| - 1], trace[|trace| - 1];
      Legal(c, o, front) && Allowed(c, o, StageOf(front), last) && StageOf(trace) == Moved(StageOf(front), last)
  {
    hide Allowed, Moved;
  }

  lemma {:induction false} LegalFront(c: Catalog, o: Options, trace: seq<Event>, n: nat)
    requires Legal(c, o, trace) && n <= |trace|
    ensures Legal(c, o, trace[..n])
    ensures n < |trace| ==> Allowed(c, o, StageOf(trace[..n]), trace[n])
                            && StageOf(trace[..n + 1]) == Moved(StageOf(trace[..n]), trace[n])
    decreases |trace|
  {
    hide Legal, StageOf, Allowed, Moved;
    if n < |trace| {
      LastStep(c, o, trace);
      var front := trace[..|trace| - 1];
      assert front[..n] == trace[..n];
      if n == |front| {
        assert trace[..n + 1] == trace && front[..n] == front;
      } else {
        assert front[..n + 1] == trace[..n + 1];
      }
      LegalFront(c, o, front, n);
    } else {
      assert trace[..n] == trace;
    }
  }

  function Depth(trace: seq<Event>): int {
    if trace == [] then 0
    else
      var last := trace[|trace| - 1];
      Depth(trace[..|trace| - 1]) + if last.BeginPhase? then 1 else if last.EndPhase? then -1 else 0
  }

  /** Phases are balanced and never overlap: at any point at most one is open, and it was begun. */
  lemma {:induction false} PhasesNeverOverlap(c: Catalog, o: Options, trace: seq<Event>)
    requires Legal(c, o, trace)
    ensures Depth(trace) == if StageOf(trace).open.Some? then 1 else 0
  {
    hide Legal, StageOf, Allowed, Moved;
    assert StageOf([]) == START by { NothingYet(); }
    if trace != [] {
      LastStep(c, o, trace);
      PhasesNeverOverlap(c, o, trace[..|trace| - 1]);
      PhaseStep(c, o, StageOf(trace[..|trace| - 1]), trace[|trace| - 1]);
    }
  }

  lemma NothingYet()
    ensures StageOf([]) == START
  {}

  lemma PhaseStep(c: Catalog, o: Options, s: Stage, e: Event)
    requires Allowed(c, o, s, e)
    ensures e.BeginPhase? ==> s.open.None? && Moved(s, e).open.Some?
    ensures e.EndPhase? ==> s.open.Some? && Moved(s, e).open.None?
    ensures !e.BeginPhase? && !e.EndPhase? ==> Moved(s, e).open == s.open
  {
    hide Selected, Ready, HookCalled;
    match e
    case Called(owner, phase, answer) => HookKeeps(s, owner, phase, answer);
    case _ =>
  }

  function RunTeardowns(trace: seq<Event>): nat {
    if trace == [] then 0
    else
      var last := trace[|trace| - 1];
      RunTeardowns(trace[..|trace| - 1]) + if last.Called? && last.owner.None? && last.phase.Teardown? then 1 else 0
  }

  predicate OpenAllowed(s: Stage) {
    s.open == Some(Owned(None, Teardown)) ==> s.hooks.runTornDown == s.called
  }

  lemma {:induction false} RunTeardownsCounted(c: Catalog, o: Options, trace: seq<Event>)
    requires Legal(c, o, trace)
    ensures RunTeardowns(trace) == if StageOf(trace).hooks.runTornDown then 1 else 0
    ensures OpenAllowed(StageOf(trace))
  {
    hide Legal, StageOf, Allowed, Moved, OpenAllowed;
    if trace == [] {
      NothingYet();
      assert OpenAllowed(START) by { StartIsFine(); }
    } else {
      LastStep(c, o, trace);
      RunTeardownsCounted(c, o, trace[..|trace| - 1]);
      RunTeardownStep(c, o, StageOf(trace[..|trace| - 1]), trace[|trace| - 1]);
    }
  }

  lemma StartIsFine()
    ensures OpenAllowed(START)
  {}

  lemma RunTeardownStep(c: Catalog, o: Options, s: Stage, e: Event)
    requires Allowed(c, o, s, e) && OpenAllowed(s)
    ensures OpenAllowed(Moved(s, e))
    ensures
      if e.Called? && e.owner.None? && e.phase.Teardown? then !s.hooks.runTornDown && Moved(s, e).hooks.runTornDown
      else Moved(s, e).hooks.runTornDown == s.hooks.runTornDown
  {
    hide Selected, Ready;
  }

  lemma {:induction false} SafedMeansTornDown(c: Catalog, o: Options, trace: seq<Event>)
    requires Legal(c, o, trace) && StageOf(trace).safed
    ensures StageOf(trace).open.None?
    ensures StageOf(trace).armed ==> StageOf(trace).hooks.runTornDown == c.teardown
  {
    hide Legal, StageOf, Allowed, Moved;
    NothingYet();
    LastStep(c, o, trace);
    var front := trace[..|trace| - 1];
    if StageOf(front).safed {
      SafedMeansTornDown(c, o, front);
    }
    SafedStep(c, o, StageOf(front), trace[|trace| - 1]);
  }

  lemma SafedStep(c: Catalog, o: Options, s: Stage, e: Event)
    requires Allowed(c, o, s, e) && Moved(s, e).safed
    requires s.safed ==> s.open.None? && (s.armed ==> s.hooks.runTornDown == c.teardown)
    ensures Moved(s, e).open.None? && (Moved(s, e).armed ==> Moved(s, e).hooks.runTornDown == c.teardown)
  {
    hide Selected, Ready;
    match e
    case Safed =>
    case Ended(_) =>
    case _ =>
  }

  /** A declared RUN_TEARDOWN runs exactly once in a run that got as far as safing. */
  lemma RunTeardownOnce(c: Catalog, o: Options, trace: seq<Event>)
    requires Legal(c, o, trace) && StageOf(trace).safed && StageOf(trace).armed
    ensures RunTeardowns(trace) == if c.teardown then 1 else 0
  {
    hide Legal, StageOf;
    RunTeardownsCounted(c, o, trace);
    SafedMeansTornDown(c, o, trace);
  }

  lemma {:induction false} TornDownStays(c: Catalog, o: Options, trace: seq<Event>, i: nat, j: nat)
    requires Legal(c, o, trace) && i <= j <= |trace| && StageOf(trace[..i]).hooks.runTornDown
    ensures StageOf(trace[..j]).hooks.runTornDown
    decreases j
  {
    hide Legal, StageOf, Allowed, Moved;
    if i < j {
      TornDownStays(c, o, trace, i, j - 1);
      LegalFront(c, o, trace, j - 1);
      StayStep(StageOf(trace[..j - 1]), trace[j - 1]);
    }
  }

  lemma StayStep(s: Stage, e: Event)
    requires s.hooks.runTornDown
    ensures Moved(s, e).hooks.runTornDown
  {
    hide HookCalled;
    match e
    case Called(owner, phase, answer) => HookKeeps(s, owner, phase, answer);
    case _ =>
  }

  /** After it come only the notes, the end of its phase, the safing and the verdict. */
  lemma RunTeardownLast(c: Catalog, o: Options, trace: seq<Event>, i: nat, j: nat)
    requires Legal(c, o, trace) && i < j < |trace|
    requires trace[i].Called? && trace[i].owner.None? && trace[i].phase.Teardown?
    ensures Closing(trace[j])
  {
    LegalFront(c, o, trace, i);
    hide Legal, StageOf, Selected, Ready;
    TornDownStays(c, o, trace, i + 1, j);
    LegalFront(c, o, trace, j);
  }

  // ---------------------------------------------------------------- groups

  /** The groups opened, in order, that declare a teardown. */
  function OwedTeardowns(c: Catalog, trace: seq<Event>): seq<nat> {
    if trace == [] then []
    else
      var before, last := OwedTeardowns(c, trace[..|trace| - 1]), trace[|trace| - 1];
      if last.BeginGroup? && c.At(last.group).teardown then before + [last.group] else before
  }

  function GroupTeardowns(trace: seq<Event>): seq<nat> {
    if trace == [] then []
    else
      var before, last := GroupTeardowns(trace[..|trace| - 1]), trace[|trace| - 1];
      if last.Called? && last.owner.Some? && last.phase.Teardown? then before + [last.owner.value] else before
  }

  /** Teardowns still owed to the group that is open. */
  function Owed(c: Catalog, s: Stage): seq<nat> {
    if s.group.Some? && c.At(s.group.value).teardown && !s.hooks.groupTornDown then [s.group.value] else []
  }

  /** An open phase is one that was allowed to begin. */
  predicate OpenOwed(c: Catalog, s: Stage) {
    s.open.Some? && s.open.value.owner.Some? ==>
      && s.group == s.open.value.owner
      && (s.open.value.phase.Teardown? ==>
           c.At(s.group.value).teardown && s.hooks.groupTornDown == s.called && (s.test.Some? ==> s.ran.Some?))
  }

  /** Every opened group's teardown runs exactly once, in the order the groups were opened. */
  lemma {:induction false} GroupTeardownsPaid(c: Catalog, o: Options, trace: seq<Event>)
    requires Legal(c, o, trace)
    ensures OwedTeardowns(c, trace) == GroupTeardowns(trace) + Owed(c, StageOf(trace))
    ensures OpenOwed(c, StageOf(trace))
  {
    if trace != [] {
      var front, last := trace[..|trace| - 1], trace[|trace| - 1];
      GroupTeardownsPaid(c, o, front);
      LastStep(c, o, trace);
      hide Legal, StageOf, Allowed, Moved, Owed, OpenOwed;
      PayOne(c, o, StageOf(front), last, OwedTeardowns(c, front), GroupTeardowns(front));
    }
  }

  lemma PayOne(c: Catalog, o: Options, s: Stage, e: Event, owed: seq<nat>, paid: seq<nat>)
    requires Allowed(c, o, s, e) && OpenOwed(c, s) && owed == paid + Owed(c, s)
    ensures
      var more := if e.BeginGroup? && c.At(e.group).teardown then owed + [e.group] else owed;
      var settled := if e.Called? && e.owner.Some? && e.phase.Teardown? then paid + [e.owner.value] else paid;
      more == settled + Owed(c, Moved(s, e)) && OpenOwed(c, Moved(s, e))
  {
    hide Selected, Ready;
  }

  /** Work of a group: its setup and its tests. */
  predicate IsWork(e: Event) {
    e.BeginTest? || e.Ran? || (e.Called? && e.owner.Some? && e.phase.Setup?)
  }

  /** No group is open that could still work. */
  predicate Spent(s: Stage) {
    && (s.group.Some? ==> s.hooks.groupTornDown) && (s.test.Some? ==> s.ran.Some?)
    && (s.open.Some? && s.open.value.owner.Some? ==> s.open.value.phase.Teardown?)
  }

  lemma SpentStays(c: Catalog, o: Options, s: Stage, e: Event)
    requires Allowed(c, o, s, e) && Spent(s) && !e.BeginGroup?
    ensures Spent(Moved(s, e)) && !IsWork(e)
  {
    hide Selected, Ready;
    match e
    case BeginPhase(owner, phase) =>
    case Called(owner, phase, _) =>
    case EndTest(_) =>
    case _ =>
  }

  lemma TeardownSpends(c: Catalog, o: Options, s: Stage, e: Event)
    requires Allowed(c, o, s, e) && OpenOwed(c, s) && e.Called? && e.owner.Some? && e.phase.Teardown?
    ensures Spent(Moved(s, e))
  {}

  lemma {:induction false} SpentUntilNextGroup(c: Catalog, o: Options, trace: seq<Event>, i: nat, j: nat)
    requires Legal(c, o, trace) && i < j <= |trace|
    requires trace[i].Called? && trace[i].owner.Some? && trace[i].phase.Teardown?
    requires forall k :: i < k < j ==> !trace[k].BeginGroup?
    ensures Spent(StageOf(trace[..j]))
    decreases j
  {
    hide Legal, StageOf, Allowed, Moved, Spent, OpenOwed;
    LegalFront(c, o, trace, j - 1);
    if i < j - 1 {
      SpentUntilNextGroup(c, o, trace, i, j - 1);
      SpentStays(c, o, StageOf(trace[..j - 1]), trace[j - 1]);
    } else {
      GroupTeardownsPaid(c, o, trace[..i]);
      TeardownSpends(c, o, StageOf(trace[..i]), trace[i]);
    }
  }

  /** Nothing of a group happens after its teardown: whatever comes next belongs to a later opening. */
  lemma GroupTeardownLast(c: Catalog, o: Options, trace: seq<Event>, i: nat, j: nat)
    requires Legal(c, o, trace) && i < j < |trace|
    requires trace[i].Called? && trace[i].owner.Some? && trace[i].phase.Teardown?
    ensures IsWork(trace[j]) ==> exists k :: i < k < j && trace[k].BeginGroup?
  {
    hide Legal, StageOf, Allowed, Spent, Moved, IsWork;
    LegalFront(c, o, trace, j);
    if forall k :: i < k < j ==> !trace[k].BeginGroup? {
      SpentUntilNextGroup(c, o, trace, i, j);
      if !trace[j].BeginGroup? {
        SpentStays(c, o, StageOf(trace[..j]), trace[j]);
      } else {
        OpeningIsNoWork(trace[j]);
      }
    }
  }

  lemma OpeningIsNoWork(e: Event)
    requires e.BeginGroup?
    ensures !IsWork(e)
  {}

  // ---------------------------------------------------------------- stops and exceptions

  lemma ClearedByPoll(trace: seq<Event>)
    requires StageOf(trace).cleared
    ensures trace != [] && trace[|trace| - 1] == Asked(false)
  {
    hide StageOf;
    StageOn(trace);
    if trace != [] {
      ClearedStep(StageOf(trace[..|trace| - 1]), trace[|trace| - 1]);
    }
  }

  lemma StageOn(trace: seq<Event>)
    ensures StageOf(trace) ==
            if trace == [] then START else Moved(StageOf(trace[..|trace| - 1]), trace[|trace| - 1])
  {}

  lemma ClearedStep(s: Stage, e: Event)
    ensures Moved(s, e).cleared ==> e == Asked(false)
  {
    hide Advanced;
  }

  lemma {:induction false} StoppedByPoll(trace: seq<Event>)
    ensures StageOf(trace).stopped <==> Stopped(trace)
  {
    hide StageOf;
    StageOn(trace);
    if trace != [] {
      var front, last := trace[..|trace| - 1], trace[|trace| - 1];
      StoppedByPoll(front);
      StoppedStep(StageOf(front), last);
      assert trace == front + [last];
    }
  }

  lemma StoppedStep(s: Stage, e: Event)
    ensures Moved(s, e).stopped <==> s.stopped || e == Asked(true)
  {
    hide HookCalled;
    match e
    case Called(owner, phase, answer) => HookKeeps(s, owner, phase, answer);
    case _ =>
  }

  /** A hook's answer bears on its own bracket, and on whether something threw. */
  lemma HookKeeps(s: Stage, owner: Option<nat>, phase: Phase, answer: HookOutcome)
    ensures
      var now := HookCalled(s, owner, phase, answer);
      && now.stopped == s.stopped && now.safed == s.safed && now.open == s.open && now.armed == s.armed
      && now.test == s.test && now.ran == s.ran && now.group == s.group
      && (s.hooks.runTornDown ==> now.hooks.runTornDown) && (s.thrown ==> now.thrown)
  {}

  /** No test or group begins but right after a poll that said no, and none once one has said yes. */
  lemma WorkIsCleared(c: Catalog, o: Options, trace: seq<Event>, i: nat)
    requires Legal(c, o, trace) && i < |trace| && (trace[i].BeginTest? || trace[i].BeginGroup?)
    ensures i > 0 && trace[i - 1] == Asked(false) && !Stopped(trace[..i])
  {
    hide Legal, StageOf, Stopped, Selected, Ready;
    LegalFront(c, o, trace, i);
    ClearedByPoll(trace[..i]);
    StoppedByPoll(trace[..i]);
  }

  lemma ThrownStep(c: Catalog, o: Options, s: Stage, e: Event)
    requires Allowed(c, o, s, e) && s.thrown
    ensures Moved(s, e).thrown && !e.EndTest? && !e.EndGroup? && !e.BeginTest? && !e.BeginGroup? && !e.Asked?
    ensures e.BeginPhase? ==> e.phase.Teardown?
  {
    hide Selected, Ready, HookCalled;
    match e
    case Called(owner, phase, answer) => HookKeeps(s, owner, phase, answer);
    case _ =>
  }

  /** Once something threw, its test and group are never ended: only teardowns, notes and safing follow. */
  lemma {:induction false} ThrownEndsNothing(c: Catalog, o: Options, trace: seq<Event>, i: nat, j: nat)
    requires Legal(c, o, trace) && i <= j < |trace| && StageOf(trace[..i]).thrown
    ensures StageOf(trace[..j]).thrown && !trace[j].EndTest? && !trace[j].EndGroup?
    ensures !trace[j].BeginTest? && !trace[j].BeginGroup? && (trace[j].BeginPhase? ==> trace[j].phase.Teardown?)
    decreases j
  {
    hide Legal, StageOf, Allowed, Moved;
    if i < j {
      ThrownEndsNothing(c, o, trace, i, j - 1);
      LegalFront(c, o, trace, j - 1);
      ThrownStep(c, o, StageOf(trace[..j - 1]), trace[j - 1]);
    }
    LegalFront(c, o, trace, j);
    ThrownStep(c, o, StageOf(trace[..j]), trace[j]);
  }
}
