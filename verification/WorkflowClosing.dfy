/** What the last event of a run says. */
module WorkflowClosing {
  import opened OrderedDict
  import opened WorkflowSteps
  import opened ParallelResults
  import opened WorkflowOptions
  import opened WorkflowRun
  import opened WorkflowTheorems
  import opened WorkflowEngines

  /** The closing event agrees with the run: completed with every step counted, failed at the first
      stopping failure in declared order, or none at all when an exception escapes. */
  lemma {:induction false} ClosingAgrees(steps: seq<Step>, context: StepResults, setup: Setup)
    requires Accepted(steps, setup.options) && Positive(setup.maxConcurrency)
    ensures var end := WorkflowRun.Run(steps, context, setup).end;
      if !end.Ended? then Closing(end) == []
      else
        var stop := FirstStopping(steps, end.result.stepResults);
        if stop.None? then end.result.success && Closing(end) == [WorkflowCompleted(|steps|)]
        else && !end.result.success && end.result.error.Some?
             && Closing(end) == [WorkflowFailed(end.result.error.value, stop.value.0.name)]
  {
    RunIsSound(steps, context, setup);
    var end := WorkflowRun.Run(steps, context, setup).end;
    if end.Ended? && end.result.success {
      assert |Keys(end.result.stepResults)| == |Names(steps)|;
    }
  }
}
