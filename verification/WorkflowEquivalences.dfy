/** Runs that must agree: with and without options, wrapped and unwrapped steps. */
module WorkflowEquivalences {
  import opened Kernel
  import opened ExecutionTypes
  import opened OrderedDict
  import opened WorkflowSteps
  import opened ParallelGroup
  import opened ParallelResults
  import opened WorkflowOptions
  import opened WorkflowUnits
  import opened WorkflowRun
  import opened WorkflowTheorems

  // ----- each unit sees exactly the results of the units before it -----

  lemma {:induction false} ResultsOnlyGrow(
      units: seq<seq<Step>>, k: nat, done: StepResults, context: StepResults, setup: Setup)
    requires k <= |units| && Reached(units, k, done) && Positive(setup.maxConcurrency)
    requires RunUnits(units, k, done, context, setup).end.Ended?
    ensures done <= RunUnits(units, k, done, context, setup).end.result.stepResults
    decreases |units| - k
  {
    if k < |units| {
      var unit := RunUnit(units[k], context, setup, setup.schedules(k));
      UnitNamesDistinct(units, k);
      RunUnitBooks(units[k], context, setup, setup.schedules(k));
      var results := unit.conclusion.results;
      AddUnit(units, k, done, results, unit.started);
      if FirstStopping(units[k], results).None? {
        NextReached(units, k, done, results, unit.started);
        ResultsOnlyGrow(units, k + 1, done + results, done + results, setup);
      }
    }
  }

  lemma {:induction false} BeforeLength(units: seq<seq<Step>>, k: nat)
    requires k <= |units|
    ensures |Before(units, k)| == Offset(units, k)
  {
    FlattenUpTo(units, k);
  }

  lemma {:induction false} NotBefore(units: seq<seq<Step>>, k: nat, i: nat)
    requires k < |units| && i < |units[k]| && Distinct(Names(Flatten(units)))
    ensures units[k][i].name !in Before(units, k)
  {
    var after := BeforeNext(units, k);
    DistinctParts(Before(units, k) + Names(units[k]), after);
    DistinctParts(Before(units, k), Names(units[k]));
    assert Names(units[k])[i] == units[k][i].name;
  }

  lemma {:induction false} GetFromPrefix(d: StepResults, final: StepResults, name: string)
    requires d <= final && Get(d, name).Some?
    ensures Get(final, name) == Get(d, name)
  {
    GetConcat(d, final[|d|..], name);
    assert final == d + final[|d|..];
  }

  /** A final result of the unit the run starts with is what executing the step there gave. */
  lemma {:induction false} ResultOfThisUnit(
      units: seq<seq<Step>>, k: nat, done: StepResults, context: StepResults, setup: Setup, i: nat)
    requires k < |units| && i < |units[k]| && Reached(units, k, done) && Positive(setup.maxConcurrency)
    requires RunUnits(units, k, done, context, setup).end.Ended?
    requires Get(RunUnits(units, k, done, context, setup).end.result.stepResults, units[k][i].name).Some?
    ensures var final := RunUnits(units, k, done, context, setup).end.result.stepResults;
      Execute(units[k][i], context, setup.options, setup.world) == Returned(Get(final, units[k][i].name).value)
  {
    var final, name := RunUnits(units, k, done, context, setup).end.result.stepResults, units[k][i].name;
    var unit := RunUnit(units[k], context, setup, setup.schedules(k));
    var results := unit.conclusion.results;
    UnitNamesDistinct(units, k);
    RunUnitBooks(units[k], context, setup, setup.schedules(k));
    AddUnit(units, k, done, results, unit.started);
    NotBefore(units, k, i);
    GetFinds(done, name);
    GetConcat(done, results, name);
    assert Get(final, name) == Get(results, name) by {
      if FirstStopping(units[k], results).None? {
        NextReached(units, k, done, results, unit.started);
        ResultsOnlyGrow(units, k + 1, done + results, done + results, setup);
        assert Names(units[k])[i] == name;
        GetFinds(results, name);
        GetFromPrefix(done + results, final, name);
      }
    }
  }

  /** Getting past a unit hands its results, and nothing else, to the rest of the run. */
  lemma GetsPast(units: seq<seq<Step>>, k: nat, done: StepResults, context: StepResults, setup: Setup)
    returns (now: StepResults)
    requires k < |units| && Reached(units, k, done) && Positive(setup.maxConcurrency)
    requires k + 1 < RunUnits(units, k, done, context, setup).entered
    ensures Reached(units, k + 1, now)
    ensures RunUnits(units, k, done, context, setup).end == RunUnits(units, k + 1, now, now, setup).end
    ensures RunUnits(units, k, done, context, setup).entered == RunUnits(units, k + 1, now, now, setup).entered
  {
    var unit := RunUnit(units[k], context, setup, setup.schedules(k));
    UnitNamesDistinct(units, k);
    RunUnitBooks(units[k], context, setup, setup.schedules(k));
    now := Update(done, unit.conclusion.results);
    NextReached(units, k, done, unit.conclusion.results, unit.started);
  }

  /** A final result is what executing the step gave in the context of its unit: the caller's
      context for the unit the run starts with, else exactly the results of the units before. */
  lemma {:induction false} ResultSeesEarlierUnits(units: seq<seq<Step>>, k: nat, done: StepResults,
      context: StepResults, setup: Setup, q: nat, i: nat)
    requires k <= q < |units| && i < |units[q]| && Reached(units, k, done) && Positive(setup.maxConcurrency)
    requires RunUnits(units, k, done, context, setup).end.Ended?
    requires q < RunUnits(units, k, done, context, setup).entered
    requires Get(RunUnits(units, k, done, context, setup).end.result.stepResults, units[q][i].name).Some?
    ensures var final := RunUnits(units, k, done, context, setup).end.result.stepResults;
      && Offset(units, k) <= Offset(units, q) <= |final|
      && final[..Offset(units, k)] == done
      && Execute(units[q][i], if q == k then context else final[..Offset(units, q)], setup.options, setup.world)
           == Returned(Get(final, units[q][i].name).value)
    decreases |units| - k
  {
    ResultsOnlyGrow(units, k, done, context, setup);
    BeforeLength(units, k);
    if q == k {
      ResultOfThisUnit(units, k, done, context, setup, i);
    } else {
      var now := GetsPast(units, k, done, context, setup);
      ResultSeesEarlierUnits(units, k + 1, now, now, setup, q, i);
      OffsetsGrow(units, k, q);
    }
  }

  /** The caller's step results reach the first unit only; unit q > 0 sees exactly the results of
      the units before it, in declared order. */
  lemma {:induction false} EveryStepSeesEarlierUnits(
      steps: seq<Step>, context: StepResults, setup: Setup, q: nat, i: nat)
    requires Accepted(steps, setup.options) && Positive(setup.maxConcurrency)
    requires Run(steps, context, setup).end.Ended?
    requires q < Run(steps, context, setup).entered && q < |Units(setup.options.groups, steps)|
    requires i < |Units(setup.options.groups, steps)[q]|
    requires Get(Run(steps, context, setup).end.result.stepResults, Units(setup.options.groups, steps)[q][i].name).Some?
    ensures var units, final := Units(setup.options.groups, steps), Run(steps, context, setup).end.result.stepResults;
      && Offset(units, q) <= |final|
      && Execute(units[q][i], if q == 0 then context else final[..Offset(units, q)], setup.options, setup.world)
           == Returned(Get(final, units[q][i].name).value)
  {
    var units := Units(setup.options.groups, steps);
    UnitsFlatten(steps, setup.options);
    assert units[..0] == [];
    ResultSeesEarlierUnits(units, 0, [], context, setup, q, i);
  }

  // ----- no groups: the plain sequential meaning -----

  /** Run, record, stop at the first failure that does not continue. */
  ghost function Sequential(steps: seq<Step>, i: nat, done: StepResults, context: StepResults, setup: Setup): Report
    requires i <= |steps|
    decreases |steps| - i
  {
    if i == |steps| then
      Report(Ended(WorkflowResult(true, done, None, None)), [], i, [])
    else
      var step := steps[i];
      match Execute(step, context, setup.options, setup.world)
      case Raised(exn) => Report(Escaped(exn), [step.name], i + 1, [context])
      case Returned(result) =>
        var now := Put(done, step.name, result);
        if !result.success && !step.continueOnFailure then
          Report(Ended(WorkflowResult(false, now, Some(StopError(step, result)), Some(step.name))), [step.name], i + 1, [context])
        else
          After([step.name], [context], Sequential(steps, i + 1, now, now, setup))
  }

  lemma {:induction false} UnitsWithoutGroups(steps: seq<Step>)
    ensures |Units([], steps)| == |steps|
    ensures forall i :: 0 <= i < |steps| ==> Units([], steps)[i] == [steps[i]]
  {
    if steps != [] {
      var front := steps[..|steps| - 1];
      UnitsWithoutGroups(front);
      assert Units([], steps) == Units([], front) + [[steps[|steps| - 1]]];
    }
  }

  lemma {:induction false} SinglesRunSequentially(units: seq<seq<Step>>, steps: seq<Step>, k: nat, done: StepResults,
      context: StepResults, setup: Setup)
    requires setup.options.groups == [] && Positive(setup.maxConcurrency)
    requires k <= |steps| == |units| && NoneEmpty(units)
    requires forall i :: 0 <= i < |steps| ==> units[i] == [steps[i]]
    ensures RunUnits(units, k, done, context, setup) == Sequential(steps, k, done, context, setup)
    decreases |steps| - k
  {
    if k < |steps| {
      var step := steps[k];
      assert units[k] == [step];
      var outcome := Execute(step, context, setup.options, setup.world);
      if outcome.Returned? {
        var results := [(step.name, outcome.result)];
        assert RunUnit([step], context, setup, setup.schedules(k)).conclusion == Results(results);
        assert results[1..] == [];
        var now := Put(done, step.name, outcome.result);
        assert Update(done, results) == Update(now, []) == now;
        assert FirstStopping([step][1..], results) == None;
        if !Stops(step, outcome.result) {
          SinglesRunSequentially(units, steps, k + 1, now, now, setup);
        }
      }
    }
  }

  /** Without parallel groups a run is the plain sequential meaning of its steps. */
  lemma {:induction false} NoGroupsIsSequential(steps: seq<Step>, context: StepResults, setup: Setup)
    requires setup.options.groups == [] && Positive(setup.maxConcurrency)
    ensures Run(steps, context, setup) == Sequential(steps, 0, [], context, setup)
  {
    UnitsWithoutGroups(steps);
    SinglesRunSequentially(Units([], steps), steps, 0, [], context, setup);
  }

  // ----- wrapping one step in a group of its own -----

  function Wrapped(setup: Setup, name: string): Setup {
    setup.(options := WrappedOptions(setup.options, name))
  }

  lemma {:induction false} WrappedGroupIndex(groups: seq<seq<string>>, name: string, x: string)
    ensures GroupIndex(groups + [[name]], x) == if x == name then Some(|groups|) else GroupIndex(groups, x)
  {
    var wrapped := groups + [[name]];
    assert wrapped[|wrapped| - 1] == [name] && wrapped[..|wrapped| - 1] == groups;
  }

  lemma {:induction false} WrappedJoins(groups: seq<seq<string>>, name: string, last: seq<Step>, step: Step)
    requires last != [] && GroupIndex(groups, name).None? && last[0].name != step.name
    ensures Joins(groups + [[name]], last, step) == Joins(groups, last, step)
  {
    WrappedGroupIndex(groups, name, last[0].name);
    WrappedGroupIndex(groups, name, step.name);
  }

  lemma {:induction false} UnitsAlwaysFlatten(groups: seq<seq<string>>, steps: seq<Step>)
    ensures Flatten(Units(groups, steps)) == steps
  {
    if steps != [] {
      var front, step := steps[..|steps| - 1], steps[|steps| - 1];
      UnitsAlwaysFlatten(groups, front);
      FlattenExtend(groups, Units(groups, front), step);
      assert steps == front + [step];
    }
  }

  lemma {:induction false} LastUnitIsEarlier(groups: seq<seq<string>>, steps: seq<Step>, step: Step)
    requires Units(groups, steps) != [] && Distinct(Names(steps + [step]))
    ensures var units := Units(groups, steps); units[|units| - 1][0].name != step.name
  {
    var units := Units(groups, steps);
    UnitsAlwaysFlatten(groups, steps);
    FlattenFirst(units, |units| - 1);
    var a := Offset(units, |units| - 1);
    assert (steps + [step])[a] == steps[a] && (steps + [step])[|steps|] == step;
    NamesDiffer(steps + [step], a, |steps|);
  }

  lemma {:induction false} WrappedExtend(groups: seq<seq<string>>, name: string, front: seq<Step>, step: Step)
    requires Distinct(Names(front + [step])) && GroupIndex(groups, name).None?
    ensures Extend(groups + [[name]], Units(groups, front), step) == Extend(groups, Units(groups, front), step)
  {
    var units := Units(groups, front);
    if units != [] {
      LastUnitIsEarlier(groups, front, step);
      WrappedJoins(groups, name, units[|units| - 1], step);
    }
  }

  lemma {:induction false} WrappedUnits(groups: seq<seq<string>>, name: string, steps: seq<Step>)
    requires Distinct(Names(steps)) && GroupIndex(groups, name).None?
    ensures Units(groups + [[name]], steps) == Units(groups, steps)
  {
    if steps != [] {
      var front, step := steps[..|steps| - 1], steps[|steps| - 1];
      assert steps == front + [step];
      DistinctParts(Names(front), Names([step]));
      NamesConcat(front, [step]);
      WrappedUnits(groups, name, front);
      WrappedExtend(groups, name, front, step);
    }
  }

  lemma WrappedUnit(unit: seq<Step>, context: StepResults, setup: Setup, name: string, schedule: Schedule)
    requires unit != [] && Positive(setup.maxConcurrency)
    ensures RunUnit(unit, context, Wrapped(setup, name), schedule) == RunUnit(unit, context, setup, schedule)
  {
    var wrapped := Wrapped(setup, name);
    assert forall i :: 0 <= i < |unit| ==>
      Execute(unit[i], context, wrapped.options, setup.world) == Execute(unit[i], context, setup.options, setup.world);
    assert UnitGroup(unit, context, wrapped) == UnitGroup(unit, context, setup);
    assert wrapped.options.groups[|setup.options.groups|] == [name];
    forall x
      ensures IsParallel(x, wrapped.options) <==> IsParallel(x, setup.options) || x == name
    {
      assert forall i :: 0 <= i < |setup.options.groups| ==> wrapped.options.groups[i] == setup.options.groups[i];
      if x == name {
        assert x in wrapped.options.groups[|setup.options.groups|];
      }
    }
    if |unit| == 1 && unit[0].name == name && !IsParallel(name, setup.options) {
      var step := unit[0];
      var g := UnitGroup(unit, context, setup);
      assert unit == [step] && g == Group([step], [Execute(step, context, setup.options, setup.world)], g.workers);
      SingletonGroup(step, Execute(step, context, setup.options, setup.world), g.workers, schedule);
      StartedAreSteps(g, RunGroup(g, schedule));
      assert StartedNames(unit, [0]) == [step.name];
    }
  }

  lemma {:induction false} WrappedRunUnits(units: seq<seq<Step>>, k: nat, done: StepResults, context: StepResults,
      setup: Setup, name: string)
    requires k <= |units| && NoneEmpty(units) && Positive(setup.maxConcurrency)
    ensures RunUnits(units, k, done, context, Wrapped(setup, name)) == RunUnits(units, k, done, context, setup)
    decreases |units| - k
  {
    if k < |units| {
      WrappedUnit(units[k], context, setup, name, setup.schedules(k));
      var unit := RunUnit(units[k], context, setup, setup.schedules(k));
      if unit.conclusion.Results? && FirstStopping(units[k], unit.conclusion.results).None? {
        var now := Update(done, unit.conclusion.results);
        WrappedRunUnits(units, k + 1, now, now, setup, name);
      }
    }
  }

  /** Naming an ungrouped step in a parallel group of its own changes nothing: not the results, not
      the stop, not an exception that propagates, whatever the schedule does. */
  lemma WrappingOneStepChangesNothing(steps: seq<Step>, context: StepResults, setup: Setup, name: string)
    requires Distinct(Names(steps)) && Positive(setup.maxConcurrency)
    requires !IsParallel(name, setup.options)
    ensures Run(steps, context, Wrapped(setup, name)) == Run(steps, context, setup)
  {
    assert GroupIndex(setup.options.groups, name).None?;
    WrappedUnits(setup.options.groups, name, steps);
    WrappedRunUnits(Units(setup.options.groups, steps), 0, [], context, setup, name);
  }

  function WrappedOptions(options: Options, name: string): Options {
    options.(groups := options.groups + [[name]])
  }

  lemma WrappedGroupsGood(groups: seq<seq<string>>, name: string)
    requires GoodGroups(groups)
    ensures GoodGroups(groups + [[name]]) <==> !Blank(name) && forall i :: 0 <= i < |groups| ==> name !in groups[i]
  {
    var wrapped := groups + [[name]];
    assert wrapped[|groups|] == [name] && name in wrapped[|groups|];
    assert forall i :: 0 <= i < |groups| ==> wrapped[i] == groups[i];
    if i :| 0 <= i < |groups| && name in groups[i] {
      assert name in wrapped[i] && i < |groups|;
    }
  }

  lemma SingleSlice(names: seq<string>, name: string)
    ensures IsSlice(names, [name]) <==> name in names
  {
    if name in names {
      var i :| 0 <= i < |names| && names[i] == name;
      assert names[i..i + 1] == [name];
      assert SliceAt(names, [name], i);
    }
    if IsSlice(names, [name]) {
      var lo: nat :| SliceAt(names, [name], lo);
      assert names[lo..lo + 1][0] == name;
    }
  }

  lemma WrappedMentions(options: Options, name: string, x: string)
    ensures Mentioned(WrappedOptions(options, name), x) <==> Mentioned(options, x) || x == name
  {
    var wrapped := WrappedOptions(options, name).groups;
    assert wrapped[|options.groups|] == [name];
    if i :| 0 <= i < |options.groups| && x in options.groups[i] {
      assert wrapped[i] == options.groups[i];
    }
    if i :| 0 <= i < |wrapped| && x in wrapped[i] {
      assert i < |options.groups| ==> wrapped[i] == options.groups[i];
    }
  }

  /** The engine takes the wrapped options exactly for a declared, non-blank, still ungrouped name. */
  lemma WrappedIsAcceptable(steps: seq<Step>, options: Options, name: string)
    requires Acceptable(steps, options)
    ensures Acceptable(steps, WrappedOptions(options, name))
       <==> name in Names(steps) && !Blank(name) && !IsParallel(name, options)
  {
    var wrapped := WrappedOptions(options, name);
    WrappedGroupsGood(options.groups, name);
    SingleSlice(Names(steps), name);
    forall x
      ensures Mentioned(wrapped, x) <==> Mentioned(options, x) || x == name
    {
      WrappedMentions(options, name, x);
    }
    assert wrapped.groups[|options.groups|] == [name];
    forall i | 0 <= i < |options.groups|
      ensures wrapped.groups[i] == options.groups[i]
    {
    }
  }
}
