/** Which failures stop a workflow, and how many of its steps run at once, in the fields of its steps. */
module WorkflowFailures {
  import opened Kernel
  import opened ExecutionTypes
  import opened OrderedDict
  import opened WorkflowSteps
  import opened ParallelGroup
  import opened ParallelResults
  import opened WorkflowOptions
  import opened WorkflowUnits
  import opened WorkflowRun
  import opened WorkflowTheorems
  import opened WorkflowEndings

  // ----- which failures stop a run -----

  /** Step `i` has no result, or one that succeeded, or it is marked to continue on failure. */
  ghost predicate PassedOver(steps: seq<Step>, results: StepResults, i: nat)
    requires i < |steps|
  {
    match Get(results, steps[i].name)
    case None => true
    case Some(result) => result.success || steps[i].continueOnFailure
  }

  /** A run that ends succeeds exactly when every result it records succeeded or belongs to a step that
      continues on failure. Otherwise it stopped at the first declared step, `i`, whose result failed
      and that does not continue, and its error carries that step's. */
  lemma EndingTells(steps: seq<Step>, context: StepResults, setup: Setup) returns (i: nat)
    requires Accepted(steps, setup.options) && Positive(setup.maxConcurrency)
    requires Run(steps, context, setup).end.Ended?
    ensures var result := Run(steps, context, setup).end.result;
      && (result.success <==> forall j: nat :: j < |steps| ==> PassedOver(steps, result.stepResults, j))
      && (!result.success ==>
            && i < |steps| && Get(result.stepResults, steps[i].name).Some?
            && (forall j: nat :: j < i ==> PassedOver(steps, result.stepResults, j))
            && var failed := Get(result.stepResults, steps[i].name).value;
            && !failed.success && !steps[i].continueOnFailure
            && result.stoppedAt == Some(steps[i].name)
            && result.error == Some("Step " + steps[i].name + " failed: "
                                    + if failed.error.Some? then failed.error.value else "None"))
  {
    RunIsSound(steps, context, setup);
    var result := Run(steps, context, setup).end.result;
    FirstStoppingFinds(steps, result.stepResults);
    i := 0;
    if FirstStopping(steps, result.stepResults).Some? {
      i :| 0 <= i < |steps| && IsFirstStopping(steps, result.stepResults, i)
           && FirstStopping(steps, result.stepResults).value == (steps[i], Get(result.stepResults, steps[i].name).value);
      forall j: nat | j < i
        ensures PassedOver(steps, result.stepResults, j)
      {
        assert !StopsIn(steps[j], result.stepResults);
      }
      assert !PassedOver(steps, result.stepResults, i);
    } else {
      forall j: nat | j < |steps|
        ensures PassedOver(steps, result.stepResults, j)
      {
        assert !StopsIn(steps[j], result.stepResults);
      }
    }
  }

  /** Every step of the unit returns, and succeeds unless it continues on failure. */
  ghost predicate Carries(unit: seq<Step>, context: StepResults, setup: Setup) {
    forall i: nat :: i < |unit| ==>
      match OutcomeOf(unit, i, context, setup)
      case Returned(result) => result.success || unit[i].continueOnFailure
      case Raised(_) => false
  }

  lemma CarryingIsQuiet(unit: seq<Step>, context: StepResults, setup: Setup)
    ensures Carries(unit, context, setup) <==> !UnitRaises(unit, context, setup) && !UnitStops(unit, context, setup)
  {
    if !UnitRaises(unit, context, setup) && !UnitStops(unit, context, setup) {
      forall i: nat | i < |unit|
        ensures OutcomeOf(unit, i, context, setup).Returned?
        ensures OutcomeOf(unit, i, context, setup).result.success || unit[i].continueOnFailure
      {
      }
    }
  }

  /** Every unit carries the run on, each taken in the context of the full results before it. */
  ghost predicate AllCarry(units: seq<seq<Step>>, k: nat, done: StepResults, context: StepResults, setup: Setup)
    requires k <= |units|
    decreases |units| - k
  {
    k == |units|
    || (Carries(units[k], context, setup)
        && var now := Update(done, FullResults(units[k], context, setup));
           AllCarry(units, k + 1, now, now, setup))
  }

  lemma {:induction false} SuccessCarries(
      units: seq<seq<Step>>, k: nat, done: StepResults, context: StepResults, setup: Setup)
    requires k <= |units| && EachDistinct(units) && Positive(setup.maxConcurrency)
    ensures var end := RunUnits(units, k, done, context, setup).end;
      end.Ended? && end.result.success <==> AllCarry(units, k, done, context, setup)
    decreases |units| - k
  {
    if k < |units| {
      CarryingIsQuiet(units[k], context, setup);
      var conclusion := RunUnit(units[k], context, setup, setup.schedules(k)).conclusion;
      if Carries(units[k], context, setup) {
        QuietUnit(units[k], context, setup, setup.schedules(k));
        QuietResultsDoNotStop(units[k], context, setup);
        var now := Update(done, conclusion.results);
        SuccessCarries(units, k + 1, now, now, setup);
      } else if conclusion.Results? && FirstStopping(units[k], conclusion.results).None? {
        PassedUnitWasQuiet(units[k], context, setup, setup.schedules(k));
      }
    }
  }

  /** A run succeeds, under any interleaving, exactly when every step returns, given the full results of
      the units before its own, and what it returns is a success or the step continues on failure. */
  lemma {:induction false} SucceedsExactlyWhen(steps: seq<Step>, context: StepResults, setup: Setup)
    requires Accepted(steps, setup.options) && Positive(setup.maxConcurrency)
    ensures var end := Run(steps, context, setup).end;
      end.Ended? && end.result.success <==> AllCarry(Units(setup.options.groups, steps), 0, [], context, setup)
  {
    UnitsAreDistinct(steps, setup.options);
    SuccessCarries(Units(setup.options.groups, steps), 0, [], context, setup);
  }

  ghost predicate AlwaysReturns(step: Step, setup: Setup) {
    forall seen: StepResults :: Execute(step, seen, setup.options, setup.world).Returned?
  }

  lemma {:induction false} TolerantUnitsCarry(
      units: seq<seq<Step>>, k: nat, done: StepResults, context: StepResults, setup: Setup)
    requires k <= |units|
    requires forall q: nat, i: nat :: q < |units| && i < |units[q]| ==>
               units[q][i].continueOnFailure && AlwaysReturns(units[q][i], setup)
    ensures AllCarry(units, k, done, context, setup)
    decreases |units| - k
  {
    if k < |units| {
      forall i: nat | i < |units[k]|
        ensures OutcomeOf(units[k], i, context, setup).Returned?
      {
        assert AlwaysReturns(units[k][i], setup);
      }
      var now := Update(done, FullResults(units[k], context, setup));
      TolerantUnitsCarry(units, k + 1, now, now, setup);
    }
  }

  /** If every step continues on failure and none ever raises, the run succeeds, however many of them
      fail, and every step ran and has its result. */
  lemma ContinuingStepsAllRun(steps: seq<Step>, context: StepResults, setup: Setup)
    requires Accepted(steps, setup.options) && Positive(setup.maxConcurrency)
    requires forall step :: step in steps ==> step.continueOnFailure && AlwaysReturns(step, setup)
    ensures var report := Run(steps, context, setup);
      && report.end.Ended? && report.end.result.success
      && Keys(report.end.result.stepResults) == Names(steps)
      && forall step :: step in steps ==> step.name in report.started
  {
    TolerantStepsCarry(steps, context, setup);
    SucceedsExactlyWhen(steps, context, setup);
    RunIsSound(steps, context, setup);
    AllRecordedAllStarted(steps, Run(steps, context, setup).started);
  }

  lemma {:induction false} TolerantStepsCarry(steps: seq<Step>, context: StepResults, setup: Setup)
    requires Accepted(steps, setup.options)
    requires forall step :: step in steps ==> step.continueOnFailure && AlwaysReturns(step, setup)
    ensures AllCarry(Units(setup.options.groups, steps), 0, [], context, setup)
  {
    var units := Units(setup.options.groups, steps);
    UnitsFlatten(steps, setup.options);
    forall q: nat, i: nat | q < |units| && i < |units[q]|
      ensures units[q][i] in steps
    {
      InSomeUnit(units, q, i);
    }
    TolerantUnitsCarry(units, 0, [], context, setup);
  }

  lemma {:induction false} InSomeUnit(units: seq<seq<Step>>, q: nat, i: nat)
    requires q < |units| && i < |units[q]|
    ensures units[q][i] in Flatten(units)
  {
    FlattenConcat(units[..q + 1], units[q + 1..]);
    assert units == units[..q + 1] + units[q + 1..];
    assert units[..q + 1][..q] == units[..q];
    assert (Flatten(units[..q]) + units[q])[|Flatten(units[..q])| + i] == units[q][i];
  }

  lemma AllRecordedAllStarted(steps: seq<Step>, started: seq<string>)
    requires Select(Names(steps), Elements(started)) == Names(steps)
    ensures forall step :: step in steps ==> step.name in started
  {
    SelectMembers(Names(steps), Elements(started));
    forall step | step in steps
      ensures step.name in started
    {
      var i :| 0 <= i < |steps| && steps[i] == step;
      assert Names(steps)[i] in Names(steps);
    }
  }

  // ----- how many steps of a unit run at once -----

  ghost function RunningNow(status: seq<Status>): set<nat> {
    set i: nat | i < |status| && status[i] == Running
  }

  lemma {:induction false} BusyCounts(status: seq<Status>)
    ensures |RunningNow(status)| == Busy(status)
  {
    if status != [] {
      var front, last := status[..|status| - 1], |status| - 1;
      BusyCounts(front);
      BusySnoc(front, status[last]);
      assert status == front + [status[last]];
      var more: set<nat> := if status[last] == Running then {last} else {};
      forall i: nat
        ensures i in RunningNow(status) <==> i in RunningNow(front) + more
      {
        assert i < last ==> front[i] == status[i];
      }
      assert RunningNow(status) == RunningNow(front) + more;
    }
  }

  lemma {:induction false} BusySnoc(status: seq<Status>, x: Status)
    ensures Busy(status + [x]) == Busy(status) + if x == Running then 1 else 0
  {
    if status == [] {
      assert [x][1..] == [];
    } else {
      BusySnoc(status[1..], x);
      assert (status + [x])[1..] == status[1..] + [x];
    }
  }

  /** At no moment of any interleaving do more steps of a unit run than the engine's limit, or than the
      unit has steps where there is none; and a queued step that no earlier one stands in the way of
      can start exactly when fewer are running. */
  lemma {:induction false} ConcurrencyIsTheLimit(
      unit: seq<Step>, context: StepResults, setup: Setup, actions: seq<Action>, s: State, i: nat)
    requires unit != [] && Positive(setup.maxConcurrency)
    requires Replay(UnitGroup(unit, context, setup), Init(UnitGroup(unit, context, setup)), actions) == Some(s)
    ensures var limit := if setup.maxConcurrency.Some? then setup.maxConcurrency.value else |unit|;
      && |RunningNow(s.status)| <= limit
      && (Has(s, i, Queued) && (forall j :: 0 <= j < i ==> s.status[j] != Queued && s.status[j] != Cancelled) ==>
            (Enabled(UnitGroup(unit, context, setup), s, Start(i)) <==> |RunningNow(s.status)| < limit))
  {
    EveryRunIsShort(UnitGroup(unit, context, setup), actions);
    BusyCounts(s.status);
    if i < |s.status| && forall j :: 0 <= j < i ==> s.status[j] != Queued && s.status[j] != Cancelled {
      NobodyWaits(s.status, i);
    }
  }
}
