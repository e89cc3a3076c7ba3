/** The engine object: checks the options, publishes events and drives the units. */
module WorkflowEngines {
  import opened Kernel
  import opened WorkflowSteps
  import opened ParallelGroup
  import opened WorkflowOptions
  import opened WorkflowUnits
  import opened WorkflowRun
  import opened ThreadPoolRun

  datatype WorkflowEvent =
    | WorkflowStarted
    | WorkflowCompleted(stepCount: nat)
    | WorkflowFailed(error: string, stoppedAt: string)

  datatype RunReply = Rejected(error: WorkflowError) | Ran(report: Report)

  /** The event that closes a run; an exception that escapes leaves the run without one. */
  function Closing(end: RunEnd): seq<WorkflowEvent> {
    match end
    case Ended(result) =>
      if result.success then [WorkflowCompleted(|result.stepResults|)]
      else [WorkflowFailed(if result.error.Some? then result.error.value else "",
                           if result.stoppedAt.Some? then result.stoppedAt.value else "")]
    case Escaped(_) => []
    case EscapedGroup(_) => []
  }

  method Check(steps: seq<Step>, options: Options) returns (error: Option<WorkflowError>)
    requires Distinct(Names(steps))
    ensures error.None? <==> Acceptable(steps, options)
  {
    error := CheckOptions(options);
    if error.None? {
      error := ValidateOptions(steps, options);
    }
  }

  lemma AfterTwice(a: seq<string>, c: seq<StepResults>, b: seq<string>, d: seq<StepResults>, rest: Report)
    ensures After(a, c, After(b, d, rest)) == After(a + b, c + d, rest)
  {
    assert a + (b + rest.started) == a + b + rest.started;
    assert c + (d + rest.contexts) == c + d + rest.contexts;
  }

  class WorkflowEngine {
    const maxConcurrency: Option<nat>
    var published: seq<WorkflowEvent>

    constructor (maxConcurrency: Option<nat>)
      requires Positive(maxConcurrency)
      ensures this.maxConcurrency == maxConcurrency && published == []
    {
      this.maxConcurrency := maxConcurrency;
      published := [];
    }

    /** A single ungrouped step runs inline; any other unit runs in a thread pool of its own. */
    method RunOneUnit(unit: seq<Step>, context: StepResults, setup: Setup, schedule: Schedule)
      returns (report: UnitReport)
      requires unit != [] && Positive(setup.maxConcurrency)
      ensures report == RunUnit(unit, context, setup, schedule)
    {
      if |unit| == 1 && !IsParallel(unit[0].name, setup.options) {
        return RunUnit(unit, context, setup, schedule);
      }
      var group := UnitGroup(unit, context, setup);
      var pool := new GroupRun(group);
      var conclusion := pool.RunSchedule(schedule);
      StartedAreSteps(group, RunGroup(group, schedule));
      return UnitReport(conclusion, StartedNames(unit, pool.started));
    }

    /** The loop over units, carrying the results so far and the context they make. */
    method Drive(units: seq<seq<Step>>, context: StepResults, setup: Setup) returns (report: Report)
      requires NoneEmpty(units) && Positive(setup.maxConcurrency)
      ensures report == RunUnits(units, 0, [], context, setup)
    {
      var stepResults: StepResults := [];
      var runningContext := context;
      var started: seq<string> := [];
      var contexts: seq<StepResults> := [];
      ghost var whole := RunUnits(units, 0, [], context, setup);
      var k := 0;
      while k < |units|
        invariant k <= |units|
        invariant whole == After(started, contexts, RunUnits(units, k, stepResults, runningContext, setup))
      {
        var unit := RunOneUnit(units[k], runningContext, setup, setup.schedules(k));
        contexts := contexts + [runningContext];
        match Judge(units[k], stepResults, unit.conclusion) {
          case Halt(end) => return Report(end, started + unit.started, k + 1, contexts);
          case GoOn(now) =>
            AfterTwice(started, contexts[..|contexts| - 1], unit.started, [runningContext],
                       RunUnits(units, k + 1, now, now, setup));
            stepResults, runningContext := now, now;
        }
        started := started + unit.started;
        k := k + 1;
      }
      return After(started, contexts, Report(Ended(WorkflowResult(true, stepResults, None, None)), [], k, []));
    }

    /** Rejected options publish nothing and run nothing; otherwise the run is `WorkflowRun.Run`. */
    method Run(steps: seq<Step>, context: StepResults, options: Options, world: World, schedules: nat -> Schedule)
      returns (reply: RunReply)
      requires Positive(maxConcurrency) && Distinct(Names(steps))
      modifies this`published
      ensures reply.Ran? <==> Acceptable(steps, options)
      ensures reply.Rejected? ==> published == old(published)
      ensures reply.Ran? ==>
        (&& reply.report == WorkflowRun.Run(steps, context, Setup(options, world, maxConcurrency, schedules))
         && published == old(published) + [WorkflowStarted] + Closing(reply.report.end))
    {
      var error := Check(steps, options);
      if error.Some? {
        return Rejected(error.value);
      }
      published := published + [WorkflowStarted];
      var units := GroupIntoUnits(steps, options);
      var report := Drive(units, context, Setup(options, world, maxConcurrency, schedules));
      published := published + Closing(report.end);
      return Ran(report);
    }
  }
}
