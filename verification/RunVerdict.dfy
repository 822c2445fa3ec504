/**
  What a run and its verdict mean (framework/runner/src/main.cpp, `isSelected`, `passCount` and the
  guarded block of `main`), in terms of the catalog, the selection and the options themselves.
*/
module RunVerdict {
  import opened Optional
  import opened RunTrace
  import opened RunParts

  /** The selection asks for this test: it names it, or names none at all. */
  predicate AskedFor(selection: seq<string>, id: string) {
    |selection| > 0 ==> exists i :: 0 <= i < |selection| && selection[i] == id
  }

  /** The test is one of some group's of the catalog. */
  predicate IsTest(c: Catalog, id: string) {
    exists g, i :: 0 <= g < |c.groups| && 0 <= i < |c.groups[g].tests| && c.groups[g].tests[i] == id
  }

  /** No test that was not asked for is ever run, nor one the catalog does not have. */
  lemma {:induction false} OnlyWhatWasAsked(c: Catalog, o: Options, trace: seq<Event>)
    requires Legal(c, o, trace)
    ensures forall id :: id in TestsRun(trace) ==> AskedFor(o.selection, id) && IsTest(c, id)
  {
    hide Allowed, StageOf, AskedFor, IsTest;
    if trace != [] {
      LastStep(c, o, trace);
      var front, last := trace[..|trace| - 1], trace[|trace| - 1];
      OnlyWhatWasAsked(c, o, front);
      if last.BeginTest? {
        BegunIsAsked(c, o, StageOf(front), last.id);
      }
    }
  }

  lemma BegunIsAsked(c: Catalog, o: Options, s: Stage, id: string)
    requires Allowed(c, o, s, BeginTest(id))
    ensures AskedFor(o.selection, id) && IsTest(c, id)
  {
    var g := s.group.value;
    var i :| 0 <= i < |c.At(g).tests| && c.At(g).tests[i] == id;
    assert c.groups[g].tests[i] == id;
  }

  /** What is asked of a list of tests is asked of its parts in turn. */
  lemma {:induction false} SelectedInOrder(o: Options, first: seq<string>, others: seq<string>)
    ensures Selected(o, first + others) == Selected(o, first) + Selected(o, others)
    decreases |others|
  {
    hide IsSelected;
    if others == [] {
      assert first + others == first;
    } else {
      var n := |others| - 1;
      SelectedInOrder(o, first, others[..n]);
      var all := first + others;
      assert all[..|all| - 1] == first + others[..n] && all[|all| - 1] == others[n];
      SelectedSnoc(o, all);
      SelectedSnoc(o, others);
    }
  }

  lemma SelectedSnoc(o: Options, tests: seq<string>)
    requires tests != []
    ensures
      var n := |tests| - 1;
      Selected(o, tests) == Selected(o, tests[..n]) + if IsSelected(o, tests[n]) then [tests[n]] else []
  {
    hide IsSelected;
  }

  /** And a test by itself is selected if it is asked for. */
  lemma OneSelected(o: Options, id: string)
    ensures Selected(o, [id]) == if AskedFor(o.selection, id) then [id] else []
  {
    assert [id][..0] == [];
    SelectedSnoc(o, [id]);
    assert Selected(o, []) == [];
    if id in o.selection {
      var i :| 0 <= i < |o.selection| && o.selection[i] == id;
    }
  }

  lemma {:induction false} SelectionHas(c: Catalog, o: Options, n: nat, g: nat, id: string)
    requires g < n && g < |c.groups| && id in c.groups[g].tests && AskedFor(o.selection, id)
    ensures id in SelectionOf(c, o, n)
  {
    if g < n - 1 {
      SelectionHas(c, o, n - 1, g, id);
    }
  }

  lemma {:induction false} TimesHas(n: nat, tests: seq<string>, id: string)
    requires n > 0 && id in tests
    ensures id in Times(n, tests)
  {}

  /** Every test asked for has been run: each one the selection names, or with none named each one there is. */
  predicate RanAll(c: Catalog, selection: seq<string>, trace: seq<Event>) {
    && (forall i :: 0 <= i < |selection| ==> BeginTest(selection[i]) in trace)
    && (selection == [] ==> forall g, i :: 0 <= g < |c.groups| && 0 <= i < |c.groups[g].tests| ==>
          BeginTest(c.groups[g].tests[i]) in trace)
  }

  lemma {:induction false} TestsBegan(trace: seq<Event>)
    ensures forall id :: id in TestsRun(trace) <==> BeginTest(id) in trace
  {
    if trace != [] {
      TestsBegan(trace[..|trace| - 1]);
      assert trace == trace[..|trace| - 1] + [trace[|trace| - 1]];
    }
  }

  /** A run whose tests are the selection, once or more, ran all that was asked for. */
  lemma SelectionIsAll(c: Catalog, o: Options, trace: seq<Event>, n: nat)
    requires UnmatchedOf(c, o.selection) == [] && n > 0
    requires TestsRun(trace) == Times(n, SelectionOf(c, o, |c.groups|))
    ensures RanAll(c, o.selection, trace)
  {
    hide TestsRun, SelectionOf, Times, UnmatchedOf;
    TestsBegan(trace);
    forall g: nat, id | g < |c.groups| && id in c.groups[g].tests && AskedFor(o.selection, id)
      ensures id in TestsRun(trace)
    {
      SelectionHas(c, o, |c.groups|, g, id);
      TimesHas(n, SelectionOf(c, o, |c.groups|), id);
    }
    forall i | 0 <= i < |o.selection| ensures BeginTest(o.selection[i]) in trace {
      var id := o.selection[i];
      NoneUnmatched(c, o.selection, id);
      var g: nat :| g < |c.groups| && id in c.groups[g].tests;
    }
  }

  lemma NoneUnmatched(c: Catalog, selection: seq<string>, id: string)
    requires UnmatchedOf(c, selection) == [] && id in selection
    ensures exists g: nat :: g < |c.groups| && id in c.groups[g].tests
  {
    assert id !in UnmatchedOf(c, selection);
  }

  // ---------------------------------------------------------------- how often

  /** As many passes as asked for, or one; with neither option, and with both, the number given is the most. */
  predicate CountedBy(o: Options, passes: nat) {
    && (o.repeat.Some? ==> passes == o.repeat.value)
    && (o.repeat.None? && !o.untilFailure ==> passes == 1)
  }

  predicate WithinCount(o: Options, passes: nat) {
    && (o.repeat.Some? ==> passes <= o.repeat.value)
    && (o.repeat.None? && !o.untilFailure ==> passes <= 1)
  }

  lemma PassesAreCounted(c: Catalog, o: Options, did: seq<Event>, run: Run, threw: bool)
    requires RunDid(c, o, did, run, threw)
    ensures WithinCount(o, |run.passes|)
    ensures !threw && !Stopped(did) && !Gated(o, did) && !FailedLast(o, run.passes) ==> CountedBy(o, |run.passes|)
  {
    hide Outside, GroupHooks, Asks, PassTests, TestsRun, Woven, WhyNoMore, Clean;
    if !Gated(o, did) {
      RunTestsAreThePasses(c, o, did, run, threw);
    }
  }

  lemma NoPassesCounted(o: Options)
    ensures WithinCount(o, 0)
  {}

  /** What a passing run's passes come to. */
  lemma PassingRunMeans(c: Catalog, o: Options, did: seq<Event>, run: Run)
    requires RunDid(c, o, did, run, false) && Clean(did) && !Stopped(did) && UnmatchedOf(c, o.selection) == []
    ensures CountedBy(o, |run.passes|) && (|run.passes| > 0 ==> RanAll(c, o.selection, did))
  {
    CleanRunRanEverything(c, o, did, run);
    if |run.passes| > 0 {
      SelectionIsAll(c, o, did, |run.passes|);
    }
  }

  // ---------------------------------------------------------------- what each bracket leaves behind

  /** A hook's events, and the note on a teardown that did anything but succeed. */
  lemma HookEventsAre(owner: Option<nat>, answer: HookOutcome)
    ensures SetupEvents(owner, answer) == [BeginPhase(owner, Setup), Called(owner, Setup, answer), EndPhase]
    ensures TeardownEvents(owner, answer) ==
            [BeginPhase(owner, Teardown), Called(owner, Teardown, answer)]
            + (if answer == Succeeded then [] else [Noted(TeardownFailed)]) + [EndPhase]
  {}

  /** A test's events: one that threw is never ended, and one a stop cut short polls for it first. */
  lemma TestEventsAre(id: string, left: ScriptOutcome)
    ensures TestEvents(id, left) ==
            [BeginTest(id), Ran(left)] +
            match left
            case ChecksPassed => [EndTest(true)]
            case CheckFailed => [EndTest(false)]
            case ScriptThrew => []
            case StopRequested => [Asked(true), EndTest(false)]
  {}

  /** A pass begins after a poll that let it, and with a note if there is to be more than one. */
  lemma LeadIs(o: Options)
    ensures
      var several := if o.repeat.Some? then o.repeat.value > 1 else o.untilFailure;
      Lead(o) == if several then [Asked(false), Noted(PassBegins)] else [Asked(false)]
  {}

  // ---------------------------------------------------------------- what a verdict means

  /** Every hook called succeeded, every script left its checks passed, and no poll said stop. */
  predicate AllWell(trace: seq<Event>) {
    forall i :: 0 <= i < |trace| ==>
      match trace[i]
      case Called(_, _, answer) => answer == Succeeded
      case Ran(left) => left == ChecksPassed
      case Asked(stop) => !stop
      case _ => true
  }

  lemma CleanIsAllWell(trace: seq<Event>)
    ensures Clean(trace) && !Stopped(trace) <==> AllWell(trace)
  {
    assert forall i :: 0 <= i < |trace| && trace[i] == Asked(true) ==> !AllWell(trace);
    if Clean(trace) && !Stopped(trace) {
      forall i | 0 <= i < |trace|
        ensures match trace[i]
                case Called(_, _, answer) => answer == Succeeded
                case Ran(left) => left == ChecksPassed
                case Asked(stop) => !stop
                case _ => true
      {
        assert Good(trace[i]) && trace[i] in trace;
      }
    }
    if AllWell(trace) {
      forall i | 0 <= i < |trace| ensures Good(trace[i]) {}
    }
  }

  lemma MatchedAreTests(c: Catalog, selection: seq<string>)
    ensures UnmatchedOf(c, selection) == [] <==> forall i :: 0 <= i < |selection| ==> IsTest(c, selection[i])
  {
    forall id | InCatalog(c, id) ensures IsTest(c, id) {
      var g :| 0 <= g < |c.groups| && id in c.groups[g].tests;
      var i :| 0 <= i < |c.groups[g].tests| && c.groups[g].tests[i] == id;
    }
    forall id | IsTest(c, id) ensures InCatalog(c, id) {
      var g, i :| 0 <= g < |c.groups| && 0 <= i < |c.groups[g].tests| && c.groups[g].tests[i] == id;
      assert id in c.groups[g].tests;
    }
    var unmatched := UnmatchedOf(c, selection);
    assert unmatched != [] ==> unmatched[0] in unmatched;
    assert forall i :: 0 <= i < |selection| ==> selection[i] in selection;
  }

  /** A RUN_SETUP that threw, or refused with no skeleton to be written, lets no test run. */
  predicate SetupGates(o: Options, trace: seq<Event>) {
    Called(None, Setup, HookThrew) in trace || (Called(None, Setup, Refused) in trace && !o.skeleton) ==>
      forall i :: 0 <= i < |trace| ==> !trace[i].BeginTest?
  }

  lemma NothingGated(o: Options)
    ensures SetupGates(o, [Safed, Ended(false)])
  {}

  lemma GatedRunsNothing(c: Catalog, o: Options, did: seq<Event>, run: Run, threw: bool)
    requires RunDid(c, o, did, run, threw)
    ensures SetupGates(o, did)
  {
    RunTestsAreThePasses(c, o, did, run, threw);
    hide TestsRun, PassesMade, Outside, GroupHooks, Stopped;
    TestsBegan(did);
    if Gated(o, did) {
      assert TestsRun(did) == [];
      forall i | 0 <= i < |did| ensures !did[i].BeginTest? {
        assert did[i] in did;
      }
    }
  }

  /** Nor does a group's setup that refused, with no skeleton to be written, until a group is opened again. */
  lemma RefusedGroupRunsNothing(c: Catalog, o: Options, trace: seq<Event>, g: nat, i: nat, j: nat)
    requires Legal(c, o, trace) && !o.skeleton && i < j < |trace| && trace[i] == Called(Some(g), Setup, Refused)
    requires forall k :: i < k <= j ==> !trace[k].BeginGroup?
    ensures !trace[j].BeginTest?
  {
    hide Legal, StageOf, Selected, IsSelected;
    RefusalStands(c, o, trace, g, i, j);
    LegalFront(c, o, trace, j);
  }

  lemma {:induction false} RefusalStands(c: Catalog, o: Options, trace: seq<Event>, g: nat, i: nat, j: nat)
    requires Legal(c, o, trace) && i < j <= |trace| && trace[i] == Called(Some(g), Setup, Refused)
    requires forall k :: i < k < j ==> !trace[k].BeginGroup?
    ensures Refusing(StageOf(trace[..j]))
    decreases j
  {
    hide Legal, StageOf, Allowed, Moved, Refusing;
    LegalFront(c, o, trace, j - 1);
    if j > i + 1 {
      RefusalStands(c, o, trace, g, i, j - 1);
      RefusalKept(c, o, StageOf(trace[..j - 1]), trace[j - 1]);
    } else {
      RefusalTold(c, o, StageOf(trace[..i]), g);
    }
  }

  /** The open group's setup has refused, and is not about to be called again. */
  predicate Refusing(s: Stage) {
    && s.hooks.groupSetup == Some(Refused)
    && (s.open.Some? && s.open.value.phase.Setup? && s.open.value.owner.Some? ==> s.called)
  }

  lemma RefusalTold(c: Catalog, o: Options, s: Stage, g: nat)
    requires Allowed(c, o, s, Called(Some(g), Setup, Refused))
    ensures Refusing(Moved(s, Called(Some(g), Setup, Refused)))
  {}

  /** A setup is called once in an opened group, so its answer stays. */
  lemma RefusalKept(c: Catalog, o: Options, s: Stage, e: Event)
    requires Allowed(c, o, s, e) && !e.BeginGroup? && Refusing(s)
    ensures Refusing(Moved(s, e))
  {
    hide Selected, IsSelected;
  }

  /**
    What a run's trace and verdict mean. Nothing runs that was not asked for, nor oftener than asked.
    The verdict passes exactly if all went well, every test named exists and the readings were all
    written; and if it passes, all that was asked for has run, as often as asked.
  */
  predicate Means(c: Catalog, o: Options, trace: seq<Event>, passes: nat, verdict: bool, streamed: bool) {
    && (forall id :: id in TestsRun(trace) ==> AskedFor(o.selection, id) && IsTest(c, id))
    && WithinCount(o, passes) && SetupGates(o, trace)
    && (verdict <==> streamed && AllWell(trace) && forall i :: 0 <= i < |o.selection| ==> IsTest(c, o.selection[i]))
    && (verdict ==> CountedBy(o, passes) && (passes > 0 ==> RanAll(c, o.selection, trace)))
  }
}
