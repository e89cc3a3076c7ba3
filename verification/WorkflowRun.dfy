/** The meaning of one workflow run: unit after unit, each seeing the results of those before it. */
module WorkflowRun {
  import opened Kernel
  import opened ExecutionTypes
  import opened OrderedDict
  import opened WorkflowSteps
  import opened ParallelGroup
  import opened ParallelResults
  import opened WorkflowUnits

  datatype WorkflowResult = WorkflowResult(
    success: bool,
    stepResults: StepResults,
    error: Option<string>,
    stoppedAt: Option<string>)

  datatype RunEnd =
    | Ended(result: WorkflowResult)
    | Escaped(exn: Exn)
    | EscapedGroup(exns: seq<Exn>)

  /** What a run did: how it ended, the steps it executed in order, how many units it entered, and the
      step results that the steps of each of those units saw. */
  datatype Report = Report(end: RunEnd, started: seq<string>, entered: nat, contexts: seq<StepResults>)

  /** Everything fixed before the run; `schedules(k)` interleaves unit k. */
  datatype Setup = Setup(
    options: Options,
    world: World,
    maxConcurrency: Option<nat>,
    schedules: nat -> Schedule)

  /** The engine's constructor refuses a limit that is not positive. */
  predicate Positive(maxConcurrency: Option<nat>) {
    maxConcurrency.Some? ==> 0 < maxConcurrency.value
  }

  predicate IsParallel(name: string, options: Options) {
    exists i :: 0 <= i < |options.groups| && name in options.groups[i]
  }

  function UnitGroup(unit: seq<Step>, context: StepResults, setup: Setup): (g: Group)
    requires unit != [] && Positive(setup.maxConcurrency)
    ensures Runnable(g) && g.steps == unit
  {
    Group(
      unit,
      seq(|unit|, i requires 0 <= i < |unit| => Execute(unit[i], context, setup.options, setup.world)),
      if setup.maxConcurrency.Some? then setup.maxConcurrency.value else |unit|)
  }

  function StartedNames(unit: seq<Step>, started: seq<nat>): (names: seq<string>)
    requires forall i :: i in started ==> i < |unit|
    ensures |names| == |started|
  {
    seq(|started|, k requires 0 <= k < |started| => assert started[k] in started; unit[started[k]].name)
  }

  datatype UnitReport = UnitReport(conclusion: Conclusion, started: seq<string>)

  function RunParallel(unit: seq<Step>, context: StepResults, setup: Setup, schedule: Schedule): UnitReport
    requires unit != [] && Positive(setup.maxConcurrency)
  {
    var g := UnitGroup(unit, context, setup);
    var s := RunGroup(g, schedule);
    StartedAreSteps(g, s);
    UnitReport(Conclude(unit, s), StartedNames(unit, s.started))
  }

  lemma StartedAreSteps(g: Group, s: State)
    requires Inv(g, s)
    ensures forall i :: i in s.started ==> i < |g.steps|
  {
    forall i | i in s.started
      ensures i < |g.steps|
    {
      assert Has(s, i, Running) || Has(s, i, Finished);
    }
  }

  function RunUnit(unit: seq<Step>, context: StepResults, setup: Setup, schedule: Schedule): UnitReport
    requires unit != [] && Positive(setup.maxConcurrency)
  {
    if |unit| == 1 && !IsParallel(unit[0].name, setup.options) then
      var conclusion := match Execute(unit[0], context, setup.options, setup.world)
        case Returned(result) => Results([(unit[0].name, result)])
        case Raised(exn) => Propagates(exn);
      UnitReport(conclusion, [unit[0].name])
    else
      RunParallel(unit, context, setup, schedule)
  }

  function StopError(step: Step, result: Result): string {
    "Step " + step.name + " failed: " + if result.error.Some? then result.error.value else "None"
  }

  function After(started: seq<string>, contexts: seq<StepResults>, rest: Report): Report {
    Report(rest.end, started + rest.started, rest.entered, contexts + rest.contexts)
  }

  /** What the engine does with a finished unit. */
  datatype Verdict = Halt(end: RunEnd) | GoOn(results: StepResults)

  function Judge(unit: seq<Step>, done: StepResults, conclusion: Conclusion): Verdict {
    match conclusion
    case Propagates(exn) => Halt(Escaped(exn))
    case PropagatesGroup(exns) => Halt(EscapedGroup(exns))
    case Results(results) =>
      var now := Update(done, results);
      match FirstStopping(unit, results)
      case Some(pair) => Halt(Ended(WorkflowResult(false, now, Some(StopError(pair.0, pair.1)), Some(pair.0.name))))
      case None => GoOn(now)
  }

  function RunUnits(
      units: seq<seq<Step>>, k: nat, done: StepResults, context: StepResults, setup: Setup): (report: Report)
    requires k <= |units| && NoneEmpty(units) && Positive(setup.maxConcurrency)
    ensures k <= report.entered <= |units| && |report.contexts| == report.entered - k
    ensures k < |units| ==> k < report.entered && report.contexts[0] == context
    decreases |units| - k
  {
    if k == |units| then
      Report(Ended(WorkflowResult(true, done, None, None)), [], k, [])
    else
      var unit := RunUnit(units[k], context, setup, setup.schedules(k));
      match Judge(units[k], done, unit.conclusion)
      case Halt(end) => Report(end, unit.started, k + 1, [context])
      case GoOn(now) => After(unit.started, [context], RunUnits(units, k + 1, now, now, setup))
  }

  function Run(steps: seq<Step>, context: StepResults, setup: Setup): Report
    requires Positive(setup.maxConcurrency)
  {
    RunUnits(Units(setup.options.groups, steps), 0, [], context, setup)
  }

  // ----- one unit -----

  lemma StartedNamesDistinct(unit: seq<Step>, started: seq<nat>)
    requires Distinct(Names(unit)) && Distinct(started) && forall i :: i in started ==> i < |unit|
    ensures Distinct(StartedNames(unit, started))
  {
    var names := StartedNames(unit, started);
    forall k, m | 0 <= k < m < |names|
      ensures names[k] != names[m]
    {
      assert started[k] in started && started[m] in started;
      assert Names(unit)[started[k]] == names[k] && Names(unit)[started[m]] == names[m];
    }
  }

  lemma StartedNamesMember(unit: seq<Step>, started: seq<nat>, i: nat)
    requires Distinct(Names(unit)) && i < |unit| && forall i :: i in started ==> i < |unit|
    ensures unit[i].name in StartedNames(unit, started) <==> i in started
  {
    var names := StartedNames(unit, started);
    if unit[i].name in names {
      var k :| 0 <= k < |names| && names[k] == unit[i].name;
      assert started[k] in started;
      assert Names(unit)[started[k]] == Names(unit)[i];
    }
    if i in started {
      var k :| 0 <= k < |started| && started[k] == i;
      assert names[k] == unit[i].name;
    }
  }

  /** Each executed step is executed once; its result is what executing it in the context of the
      unit gives; the results come in declared order. */
  ghost predicate UnitBooks(unit: seq<Step>, context: StepResults, setup: Setup, report: UnitReport) {
    && Distinct(report.started)
    && (forall x :: x in report.started ==> x in Names(unit))
    && (report.conclusion.Results? ==>
          var results := report.conclusion.results;
          && Keys(results) == Select(Names(unit), Elements(report.started))
          && (FirstStopping(unit, results).None? ==> Keys(results) == Names(unit))
          && forall i :: 0 <= i < |unit| ==> ResultAt(unit[i], context, setup, report, Get(results, unit[i].name)))
  }

  ghost predicate ResultAt(step: Step, context: StepResults, setup: Setup, report: UnitReport, found: Option<Result>) {
    match found
    case None => step.name !in report.started
    case Some(result) =>
      step.name in report.started && Execute(step, context, setup.options, setup.world) == Returned(result)
  }

  lemma ParallelResultAt(unit: seq<Step>, context: StepResults, setup: Setup, schedule: Schedule, i: nat)
    requires unit != [] && Distinct(Names(unit)) && Positive(setup.maxConcurrency) && i < |unit|
    requires RunParallel(unit, context, setup, schedule).conclusion.Results?
    ensures var report := RunParallel(unit, context, setup, schedule);
      ResultAt(unit[i], context, setup, report, Get(report.conclusion.results, unit[i].name))
  {
    var g := UnitGroup(unit, context, setup);
    var s := RunGroup(g, schedule);
    StartedAreSteps(g, s);
    ConcludeGets(g, s, i);
    StartedNamesMember(unit, s.started, i);
  }

  lemma ParallelKeys(unit: seq<Step>, context: StepResults, setup: Setup, schedule: Schedule)
    requires unit != [] && Distinct(Names(unit)) && Positive(setup.maxConcurrency)
    requires RunParallel(unit, context, setup, schedule).conclusion.Results?
    ensures var report := RunParallel(unit, context, setup, schedule);
      Keys(report.conclusion.results) == Select(Names(unit), Elements(report.started))
  {
    var g := UnitGroup(unit, context, setup);
    var s := RunGroup(g, schedule);
    StartedAreSteps(g, s);
    GatherKeys(unit, s.completed, 0);
    assert Names(unit)[0..] == Names(unit);
    var chosen, ran := CompletedNames(unit, s.completed), Elements(StartedNames(unit, s.started));
    forall x | x in Names(unit)
      ensures x in chosen <==> x in ran
    {
      var i :| 0 <= i < |unit| && Names(unit)[i] == x;
      FinalPartition(g, s, i);
      assert i !in s.raised;
      StartedNamesMember(unit, s.started, i);
      CompletedNamesMember(unit, s.completed, i);
    }
    SelectCongruent(Names(unit), chosen, ran);
  }

  lemma CompletedNamesMember(unit: seq<Step>, completed: map<nat, Result>, i: nat)
    requires Distinct(Names(unit)) && i < |unit|
    ensures unit[i].name in CompletedNames(unit, completed) <==> i in completed
  {
    if unit[i].name in CompletedNames(unit, completed) {
      var k :| k in completed && k < |unit| && unit[k].name == unit[i].name;
      assert Names(unit)[k] == Names(unit)[i];
    }
  }

  lemma RunParallelBooks(unit: seq<Step>, context: StepResults, setup: Setup, schedule: Schedule)
    requires unit != [] && Distinct(Names(unit)) && Positive(setup.maxConcurrency)
    ensures UnitBooks(unit, context, setup, RunParallel(unit, context, setup, schedule))
  {
    var g := UnitGroup(unit, context, setup);
    var s := RunGroup(g, schedule);
    var report := RunParallel(unit, context, setup, schedule);
    StartedAreSteps(g, s);
    StartedNamesDistinct(unit, s.started);
    forall x | x in report.started
      ensures x in Names(unit)
    {
      var k :| 0 <= k < |s.started| && report.started[k] == x;
      assert s.started[k] in s.started;
      assert Names(unit)[s.started[k]] == x;
    }
    if report.conclusion.Results? {
      ParallelKeys(unit, context, setup, schedule);
      if FirstStopping(unit, report.conclusion.results).None? {
        NoStopMeansAllResults(g, s);
      }
      forall i | 0 <= i < |unit|
        ensures ResultAt(unit[i], context, setup, report, Get(report.conclusion.results, unit[i].name))
      {
        ParallelResultAt(unit, context, setup, schedule, i);
      }
    }
  }

  lemma RunUnitBooks(unit: seq<Step>, context: StepResults, setup: Setup, schedule: Schedule)
    requires unit != [] && Distinct(Names(unit)) && Positive(setup.maxConcurrency)
    ensures UnitBooks(unit, context, setup, RunUnit(unit, context, setup, schedule))
  {
    if |unit| == 1 && !IsParallel(unit[0].name, setup.options) {
      var report := RunUnit(unit, context, setup, schedule);
      assert Names(unit) == [unit[0].name] == report.started;
      SelectAll(Names(unit), Elements(report.started));
      if report.conclusion.Results? {
        assert Keys(report.conclusion.results) == Names(unit);
      }
    } else {
      RunParallelBooks(unit, context, setup, schedule);
    }
  }
}
