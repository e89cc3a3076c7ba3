/** Which workflows end alike, and end at all, under every interleaving. */
module WorkflowEndings {
  import opened Kernel
  import opened ExecutionTypes
  import opened OrderedDict
  import opened WorkflowSteps
  import opened ParallelGroup
  import opened ParallelResults
  import opened ScheduleDependence
  import opened WorkflowOptions
  import opened WorkflowUnits
  import opened WorkflowRun
  import opened WorkflowTheorems
  import opened WorkflowEngines

  // ----- the outcomes of one unit -----

  function OutcomeOf(unit: seq<Step>, i: nat, context: StepResults, setup: Setup): Outcome
    requires i < |unit|
  {
    Execute(unit[i], context, setup.options, setup.world)
  }

  ghost predicate UnitRaises(unit: seq<Step>, context: StepResults, setup: Setup) {
    exists i: nat :: i < |unit| && OutcomeOf(unit, i, context, setup).Raised?
  }

  ghost predicate UnitStops(unit: seq<Step>, context: StepResults, setup: Setup) {
    exists i: nat :: i < |unit| && OutcomeOf(unit, i, context, setup).Returned?
                     && !OutcomeOf(unit, i, context, setup).result.success && !unit[i].continueOnFailure
  }

  /** The results of a unit that runs completely, in declared order. */
  function FullResults(unit: seq<Step>, context: StepResults, setup: Setup): StepResults
    requires forall i: nat :: i < |unit| ==> OutcomeOf(unit, i, context, setup).Returned?
  {
    seq(|unit|, i requires 0 <= i < |unit| => (unit[i].name, OutcomeOf(unit, i, context, setup).result))
  }

  lemma {:induction false} GatherFullSize(steps: seq<Step>, completed: map<nat, Result>, from: nat)
    requires from <= |steps| && forall i :: from <= i < |steps| ==> i in completed
    ensures |Gather(steps, completed, from)| == |steps| - from
    decreases |steps| - from
  {
    if from < |steps| {
      GatherFullSize(steps, completed, from + 1);
    }
  }

  lemma {:induction false} GatherFullAt(steps: seq<Step>, completed: map<nat, Result>, from: nat, i: nat)
    requires from <= i < |steps| && forall i :: from <= i < |steps| ==> i in completed
    ensures |Gather(steps, completed, from)| == |steps| - from
    ensures Gather(steps, completed, from)[i - from] == (steps[i].name, completed[i])
    decreases |steps| - from
  {
    GatherFullSize(steps, completed, from);
    if from < i {
      GatherFullAt(steps, completed, from + 1, i);
    }
  }

  lemma GroupOutcome(unit: seq<Step>, context: StepResults, setup: Setup, i: nat)
    requires unit != [] && Positive(setup.maxConcurrency) && i < |unit|
    ensures UnitGroup(unit, context, setup).outcomes[i] == OutcomeOf(unit, i, context, setup)
  {
  }

  lemma QuietGroup(g: Group, schedule: Schedule, full: StepResults)
    requires Runnable(g) && |full| == |g.steps|
    requires forall i: nat :: i < |g.steps| ==>
               !Failing(g, i) && full[i].0 == g.steps[i].name && g.outcomes[i] == Returned(full[i].1)
    ensures Conclude(g.steps, RunGroup(g, schedule)) == Results(full)
  {
    NoFailureIsScheduleFree(g, schedule);
    var completed := RunGroup(g, schedule).completed;
    GatherFullSize(g.steps, completed, 0);
    forall i: nat | i < |g.steps|
      ensures Gather(g.steps, completed, 0)[i] == full[i]
    {
      GatherFullAt(g.steps, completed, 0, i);
    }
    assert Gather(g.steps, completed, 0) == full;
  }

  /** A unit in which nothing raises and nothing stops ends with its full results, however scheduled. */
  lemma QuietUnit(unit: seq<Step>, context: StepResults, setup: Setup, schedule: Schedule)
    requires unit != [] && Positive(setup.maxConcurrency)
    requires !UnitRaises(unit, context, setup) && !UnitStops(unit, context, setup)
    ensures RunUnit(unit, context, setup, schedule).conclusion == Results(FullResults(unit, context, setup))
  {
    var full := FullResults(unit, context, setup);
    if |unit| == 1 && !IsParallel(unit[0].name, setup.options) {
      assert full == [full[0]];
    } else {
      var g := UnitGroup(unit, context, setup);
      forall i: nat | i < |g.steps|
        ensures !Failing(g, i) && g.outcomes[i] == Returned(full[i].1)
      {
        GroupOutcome(unit, context, setup, i);
      }
      QuietGroup(g, schedule, full);
    }
  }

  /** A unit in which nothing raises concludes with results, and one of them stops it if one can. */
  lemma {:induction false} UnitWithoutRaise(unit: seq<Step>, context: StepResults, setup: Setup, schedule: Schedule)
    requires unit != [] && Positive(setup.maxConcurrency) && Distinct(Names(unit))
    requires !UnitRaises(unit, context, setup) && UnitStops(unit, context, setup)
    ensures var conclusion := RunUnit(unit, context, setup, schedule).conclusion;
      conclusion.Results? && FirstStopping(unit, conclusion.results).Some?
  {
    var i: nat :| i < |unit| && OutcomeOf(unit, i, context, setup).Returned?
                  && !OutcomeOf(unit, i, context, setup).result.success && !unit[i].continueOnFailure;
    if |unit| == 1 && !IsParallel(unit[0].name, setup.options) {
      assert i == 0;
    } else {
      var g := UnitGroup(unit, context, setup);
      forall j | 0 <= j < |g.steps|
        ensures g.outcomes[j].Returned?
      {
        GroupOutcome(unit, context, setup, j);
      }
      GroupOutcome(unit, context, setup, i);
      assert Failing(g, i);
      StoppingIsScheduleFree(g, schedule, schedule);
    }
  }

  /** A unit with a raising step has an interleaving in which an exception propagates. */
  lemma RaisingUnit(unit: seq<Step>, context: StepResults, setup: Setup) returns (schedule: Schedule)
    requires unit != [] && Positive(setup.maxConcurrency) && UnitRaises(unit, context, setup)
    ensures !RunUnit(unit, context, setup, schedule).conclusion.Results?
  {
    var i: nat :| i < |unit| && OutcomeOf(unit, i, context, setup).Raised?;
    schedule := tick => Submit;
    if |unit| == 1 && !IsParallel(unit[0].name, setup.options) {
      assert i == 0;
    } else {
      var g := UnitGroup(unit, context, setup);
      schedule := EveryoneRuns(g);
      GroupOutcome(unit, context, setup, i);
      RaisedAt(g, RunGroup(g, schedule), i);
    }
  }

  // ----- whole runs -----

  function Under(setup: Setup, schedules: nat -> Schedule): Setup {
    setup.(schedules := schedules)
  }

  /** The first unit with a stopping or raising outcome has no raising one; each unit is taken in the
      context of the full results before it. */
  ghost predicate NeverEscapes(units: seq<seq<Step>>, k: nat, done: StepResults, context: StepResults, setup: Setup)
    requires k <= |units|
    decreases |units| - k
  {
    if k == |units| then true
    else if UnitRaises(units[k], context, setup) then false
    else if UnitStops(units[k], context, setup) then true
    else
      var now := Update(done, FullResults(units[k], context, setup));
      NeverEscapes(units, k + 1, now, now, setup)
  }

  ghost predicate EachDistinct(units: seq<seq<Step>>) {
    forall k :: 0 <= k < |units| ==> units[k] != [] && Distinct(Names(units[k]))
  }

  lemma SameUnit(unit: seq<Step>, context: StepResults, setup: Setup, schedules: nat -> Schedule, schedule: Schedule)
    requires unit != [] && Positive(setup.maxConcurrency)
    ensures RunUnit(unit, context, Under(setup, schedules), schedule) == RunUnit(unit, context, setup, schedule)
  {
    var other := Under(setup, schedules);
    assert UnitGroup(unit, context, other) == UnitGroup(unit, context, setup) by {
      forall i: nat | i < |unit|
        ensures OutcomeOf(unit, i, context, other) == OutcomeOf(unit, i, context, setup)
      {
      }
      assert UnitGroup(unit, context, other).outcomes == UnitGroup(unit, context, setup).outcomes;
    }
  }

  lemma {:induction false} NeverEscapingEnds(units: seq<seq<Step>>, k: nat, done: StepResults, context: StepResults,
      setup: Setup, schedules: nat -> Schedule)
    requires k <= |units| && EachDistinct(units) && Positive(setup.maxConcurrency)
    requires NeverEscapes(units, k, done, context, setup)
    ensures RunUnits(units, k, done, context, Under(setup, schedules)).end.Ended?
    decreases |units| - k
  {
    if k < |units| {
      SameUnit(units[k], context, setup, schedules, schedules(k));
      if UnitStops(units[k], context, setup) {
        UnitWithoutRaise(units[k], context, setup, schedules(k));
      } else {
        QuietUnit(units[k], context, setup, schedules(k));
        var conclusion := RunUnit(units[k], context, setup, schedules(k)).conclusion;
        if FirstStopping(units[k], conclusion.results).None? {
          var now := Update(done, conclusion.results);
          NeverEscapingEnds(units, k + 1, now, now, setup, schedules);
        }
      }
    }
  }

  lemma {:induction false} QuietResultsDoNotStop(unit: seq<Step>, context: StepResults, setup: Setup)
    requires Distinct(Names(unit)) && !UnitRaises(unit, context, setup) && !UnitStops(unit, context, setup)
    ensures FirstStopping(unit, FullResults(unit, context, setup)).None?
  {
    var full := FullResults(unit, context, setup);
    assert Keys(full) == Names(unit);
    FirstStoppingFinds(unit, full);
    forall i: nat | i < |unit|
      ensures !StopsIn(unit[i], full)
    {
      GetAt(full, i);
    }
  }

  lemma {:induction false} EscapingRaises(
      units: seq<seq<Step>>, k: nat, done: StepResults, context: StepResults, setup: Setup)
    returns (schedules: nat -> Schedule)
    requires k <= |units| && EachDistinct(units) && Positive(setup.maxConcurrency)
    requires !NeverEscapes(units, k, done, context, setup)
    ensures !RunUnits(units, k, done, context, Under(setup, schedules)).end.Ended?
    decreases |units| - k
  {
    if UnitRaises(units[k], context, setup) {
      var schedule := RaisingUnit(units[k], context, setup);
      schedules := n => schedule;
      SameUnit(units[k], context, setup, schedules, schedule);
    } else {
      var now := Update(done, FullResults(units[k], context, setup));
      schedules := EscapingRaises(units, k + 1, now, now, setup);
      SameUnit(units[k], context, setup, schedules, schedules(k));
      QuietUnit(units[k], context, setup, schedules(k));
      QuietResultsDoNotStop(units[k], context, setup);
    }
  }

  lemma {:induction false} UnitsAreDistinct(steps: seq<Step>, options: Options)
    requires Accepted(steps, options)
    ensures EachDistinct(Units(options.groups, steps))
  {
    var units := Units(options.groups, steps);
    UnitsFlatten(steps, options);
    forall k | 0 <= k < |units|
      ensures Distinct(Names(units[k]))
    {
      UnitNamesDistinct(units, k);
    }
  }

  /** Under every interleaving a run publishes its one closing event exactly when the first unit with a
      stopping or raising outcome has no raising one. */
  lemma {:induction false} ClosesExactlyWhen(steps: seq<Step>, context: StepResults, setup: Setup)
    requires Accepted(steps, setup.options) && Positive(setup.maxConcurrency)
    ensures (forall schedules: nat -> Schedule :: |Closing(WorkflowRun.Run(steps, context, Under(setup, schedules)).end)| == 1)
       <==> NeverEscapes(Units(setup.options.groups, steps), 0, [], context, setup)
  {
    var units := Units(setup.options.groups, steps);
    UnitsAreDistinct(steps, setup.options);
    if NeverEscapes(units, 0, [], context, setup) {
      forall schedules: nat -> Schedule
        ensures |Closing(WorkflowRun.Run(steps, context, Under(setup, schedules)).end)| == 1
      {
        NeverEscapingEnds(units, 0, [], context, setup, schedules);
      }
    } else {
      var schedules := EscapingRaises(units, 0, [], context, setup);
      assert |Closing(WorkflowRun.Run(steps, context, Under(setup, schedules)).end)| == 0;
    }
  }

  // ----- a run without a closing event -----

  const BROKEN := World(name => 0, (name, request, permissions) => Raised(Exn("broken")))

  /** One step whose engine call raises: the run publishes that it started, and nothing more. */
  lemma RaisingStepClosesNothing(step: Step, context: StepResults, schedules: nat -> Schedule)
    ensures var run := WorkflowRun.Run([step], context, Setup(Options(map[], [], map[]), BROKEN, None, schedules));
      run.end == Escaped(Exn("broken")) && [WorkflowStarted] + Closing(run.end) == [WorkflowStarted]
  {
    var setup := Setup(Options(map[], [], map[]), BROKEN, None, schedules);
    assert Units([], [step]) == [[step]] by {
      assert [step][..0] == [];
      assert Units([], []) == [];
    }
    assert RunUnit([step], context, setup, schedules(0)).conclusion == Propagates(Exn("broken"));
  }

  // ----- success does not depend on the interleaving -----

  lemma {:induction false} PassedUnitWasQuiet(unit: seq<Step>, context: StepResults, setup: Setup, schedule: Schedule)
    requires unit != [] && Positive(setup.maxConcurrency) && Distinct(Names(unit))
    requires var conclusion := RunUnit(unit, context, setup, schedule).conclusion;
      conclusion.Results? && FirstStopping(unit, conclusion.results).None?
    ensures !UnitRaises(unit, context, setup) && !UnitStops(unit, context, setup)
  {
    forall i: nat | i < |unit|
      ensures var o := OutcomeOf(unit, i, context, setup); o.Returned? && (o.result.success || unit[i].continueOnFailure)
    {
      if |unit| == 1 && !IsParallel(unit[0].name, setup.options) {
        assert i == 0;
      } else {
        var g := UnitGroup(unit, context, setup);
        var s := RunGroup(g, schedule);
        NoStopMeansAllResults(g, s);
        GroupOutcome(unit, context, setup, i);
        FinalPartition(g, s, i);
        ConcludeGets(g, s, i);
        assert !Failing(g, i);
      }
    }
  }

  lemma {:induction false} SuccessRepeats(units: seq<seq<Step>>, k: nat, done: StepResults, context: StepResults,
      setup: Setup, other: nat -> Schedule)
    requires k <= |units| && EachDistinct(units) && Positive(setup.maxConcurrency)
    requires RunUnits(units, k, done, context, setup).end.Ended?
    requires RunUnits(units, k, done, context, setup).end.result.success
    ensures RunUnits(units, k, done, context, Under(setup, other)).end == RunUnits(units, k, done, context, setup).end
    decreases |units| - k
  {
    if k < |units| {
      var conclusion := RunUnit(units[k], context, setup, setup.schedules(k)).conclusion;
      PassedUnitWasQuiet(units[k], context, setup, setup.schedules(k));
      QuietUnit(units[k], context, setup, setup.schedules(k));
      QuietUnit(units[k], context, setup, other(k));
      SameUnit(units[k], context, setup, other, other(k));
      var now := Update(done, conclusion.results);
      SuccessRepeats(units, k + 1, now, now, setup, other);
    }
  }

  /** A run that succeeds under one interleaving ends the same under every one, with the same results in
      the same order, whatever its steps do. */
  lemma SuccessIsScheduleFree(steps: seq<Step>, context: StepResults, setup: Setup, other: nat -> Schedule)
    requires Accepted(steps, setup.options) && Positive(setup.maxConcurrency)
    requires WorkflowRun.Run(steps, context, setup).end.Ended?
    requires WorkflowRun.Run(steps, context, setup).end.result.success
    ensures WorkflowRun.Run(steps, context, Under(setup, other)).end == WorkflowRun.Run(steps, context, setup).end
  {
    UnitsAreDistinct(steps, setup.options);
    SuccessRepeats(Units(setup.options.groups, steps), 0, [], context, setup, other);
  }
}
