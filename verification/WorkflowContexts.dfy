/** What the steps of each unit saw, in every run: finished, stopped, or escaped by an exception. */
module WorkflowContexts {
  import opened Kernel
  import opened ExecutionTypes
  import opened OrderedDict
  import opened WorkflowSteps
  import opened ParallelResults
  import opened WorkflowOptions
  import opened WorkflowUnits
  import opened WorkflowRun
  import opened WorkflowTheorems
  import opened WorkflowEquivalences

  /** `d` holds what step `i` of the unit made of `context`. */
  ghost predicate MadeFrom(unit: seq<Step>, i: nat, context: StepResults, setup: Setup, d: StepResults)
    requires i < |unit|
  {
    Get(d, unit[i].name).Some?
    && Execute(unit[i], context, setup.options, setup.world) == Returned(Get(d, unit[i].name).value)
  }

  /** `d` holds what step `i` of unit `p` made of that unit's own context. */
  ghost predicate MadeIn(units: seq<seq<Step>>, p: nat, i: nat, contexts: seq<StepResults>, setup: Setup, d: StepResults) {
    p < |units| && p < |contexts| && i < |units[p]| && MadeFrom(units[p], i, contexts[p], setup, d)
  }

  /** How a run unfolds: either it ends in this unit, or the rest of it starts from this unit's results. */
  lemma RunUnfolds(units: seq<seq<Step>>, k: nat, done: StepResults, context: StepResults, setup: Setup, report: Report)
    returns (results: Option<StepResults>, rest: Report)
    requires k < |units| && NoneEmpty(units) && Positive(setup.maxConcurrency)
    requires report == RunUnits(units, k, done, context, setup)
    ensures results.None? ==> report.entered == k + 1 && report.contexts == [context]
    ensures results.Some? ==>
      && rest == RunUnits(units, k + 1, Update(done, results.value), Update(done, results.value), setup)
      && report.entered == rest.entered && report.contexts == [context] + rest.contexts
      && RunUnit(units[k], context, setup, setup.schedules(k)).conclusion == Results(results.value)
      && FirstStopping(units[k], results.value).None?
  {
    var conclusion := RunUnit(units[k], context, setup, setup.schedules(k)).conclusion;
    results, rest := None, report;
    if conclusion.Results? && FirstStopping(units[k], conclusion.results).None? {
      results := Some(conclusion.results);
      rest := RunUnits(units, k + 1, Update(done, results.value), Update(done, results.value), setup);
    }
  }

  /** `d` is what a run knows after unit `p`, whose steps saw `c`. */
  ghost predicate Link(units: seq<seq<Step>>, p: nat, c: StepResults, d: StepResults, setup: Setup) {
    p < |units| && Reached(units, p + 1, d)
    && forall i: nat :: i < |units[p]| ==> MadeFrom(units[p], i, c, setup, d)
  }

  /** Getting past a unit: its whole results, made of its context, are what the rest of the run sees. */
  lemma {:induction false} PastOneUnit(
      units: seq<seq<Step>>, k: nat, done: StepResults, context: StepResults, setup: Setup, results: StepResults)
    requires k < |units| && Reached(units, k, done) && Positive(setup.maxConcurrency)
    requires RunUnit(units[k], context, setup, setup.schedules(k)).conclusion == Results(results)
    requires FirstStopping(units[k], results).None?
    ensures Link(units, k, context, Update(done, results), setup) && done <= Update(done, results)
  {
    var unit := RunUnit(units[k], context, setup, setup.schedules(k));
    UnitNamesDistinct(units, k);
    RunUnitBooks(units[k], context, setup, setup.schedules(k));
    NextReached(units, k, done, results, unit.started);
    AddUnit(units, k, done, results, unit.started);
    forall i: nat | i < |units[k]|
      ensures MadeFrom(units[k], i, context, setup, Update(done, results))
    {
      AddedResult(units, k, i, done, results);
    }
  }

  lemma {:induction false} AddedResult(units: seq<seq<Step>>, k: nat, i: nat, done: StepResults, results: StepResults)
    requires k < |units| && i < |units[k]| && Reached(units, k, done) && Keys(results) == Names(units[k])
    ensures Get(done + results, units[k][i].name) == Get(results, units[k][i].name)
    ensures Get(results, units[k][i].name).Some?
  {
    var name := units[k][i].name;
    NotBefore(units, k, i);
    GetFinds(done, name);
    GetConcat(done, results, name);
    assert Names(units[k])[i] == name;
    GetFinds(results, name);
  }

  lemma MadeLater(unit: seq<Step>, i: nat, context: StepResults, setup: Setup, d: StepResults, later: StepResults)
    requires i < |unit| && MadeFrom(unit, i, context, setup, d) && d <= later
    ensures MadeFrom(unit, i, context, setup, later)
  {
    GetFromPrefix(d, later, unit[i].name);
  }

  /** Going on from unit `k`: the second context is made from the first, and the rest of the run has it. */
  lemma FirstLink(units: seq<seq<Step>>, k: nat, done: StepResults, context: StepResults, setup: Setup, report: Report)
    returns (now: StepResults, rest: Report)
    requires k < |units| && Reached(units, k, done) && Positive(setup.maxConcurrency)
    requires report == RunUnits(units, k, done, context, setup) && 1 < |report.contexts|
    ensures report.contexts == [context] + rest.contexts && 0 < |rest.contexts|
    ensures Link(units, k, context, now, setup) && done <= now && rest.contexts[0] == now
    ensures k + 1 < |units| && Reached(units, k + 1, now) && rest == RunUnits(units, k + 1, now, now, setup)
  {
    var results;
    results, rest := RunUnfolds(units, k, done, context, setup, report);
    now := Update(done, results.value);
    PastOneUnit(units, k, done, context, setup, results.value);
  }

  /** Where a run stands when it enters unit `q`, and what it knows there. */
  lemma {:induction false} RunAt(units: seq<seq<Step>>, context: StepResults, setup: Setup, report: Report, q: nat)
    returns (known: StepResults, rest: Report)
    requires units != [] && Reached(units, 0, []) && Positive(setup.maxConcurrency)
    requires report == RunUnits(units, 0, [], context, setup) && q < |report.contexts|
    ensures q < |units| && Reached(units, q, known) && (0 < q ==> known == report.contexts[q])
    ensures rest == RunUnits(units, q, known, report.contexts[q], setup) && rest.contexts == report.contexts[q..]
  {
    known, rest := [], report;
    if 0 < q {
      var before, here := RunAt(units, context, setup, report, q - 1);
      known, rest := FirstLink(units, q - 1, before, report.contexts[q - 1], setup, here);
      assert report.contexts[q - 1..][1..] == report.contexts[q..];
    }
  }

  /** Neighbouring contexts of a run: each is what the unit before it made, on top of what was known. */
  lemma {:induction false} ContextsLink(
      units: seq<seq<Step>>, context: StepResults, setup: Setup, report: Report, j: nat)
    requires units != [] && Reached(units, 0, []) && Positive(setup.maxConcurrency)
    requires report == RunUnits(units, 0, [], context, setup) && j + 1 < |report.contexts|
    ensures Link(units, j, report.contexts[j], report.contexts[j + 1], setup)
    ensures 0 < j ==> report.contexts[j] <= report.contexts[j + 1]
  {
    var known, here := RunAt(units, context, setup, report, j);
    var now, rest := FirstLink(units, j, known, report.contexts[j], setup, here);
    assert report.contexts[j + 1] == report.contexts[j..][1] == rest.contexts[0];
  }

  lemma {:induction false} ContextsGrow(contexts: seq<StepResults>, a: nat, b: nat)
    requires 0 < a <= b < |contexts|
    requires forall j: nat :: 0 < j && j + 1 < |contexts| ==> contexts[j] <= contexts[j + 1]
    ensures contexts[a] <= contexts[b]
  {
    if a < b {
      ContextsGrow(contexts, a, b - 1);
      assert contexts[b - 1] <= contexts[(b - 1) + 1];
    }
  }

  /** In every run, whatever ends it: the first unit sees the caller's step results; each later unit
      that is entered sees exactly the results of the units before it, in declared order, each of them
      what its step made of its own unit's context, and none of them stops the workflow. */
  lemma {:induction false} EveryUnitSeesEarlierUnits(steps: seq<Step>, context: StepResults, setup: Setup, q: nat)
    requires Accepted(steps, setup.options) && Positive(setup.maxConcurrency)
    requires q < Run(steps, context, setup).entered
    ensures q <= |Units(setup.options.groups, steps)|
    ensures |Run(steps, context, setup).contexts| == Run(steps, context, setup).entered
    ensures q == 0 ==> Run(steps, context, setup).contexts[q] == context
    ensures var units, contexts := Units(setup.options.groups, steps), Run(steps, context, setup).contexts;
      0 < q ==>
        && Keys(contexts[q]) == Names(Flatten(units[..q]))
        && FirstStopping(Flatten(units[..q]), contexts[q]).None?
        && forall p: nat, i: nat :: p < q && i < |units[p]| ==> MadeIn(units, p, i, contexts, setup, contexts[q])
  {
    var units, contexts := Units(setup.options.groups, steps), Run(steps, context, setup).contexts;
    UnitsFlatten(steps, setup.options);
    assert units[..0] == [];
    if q > 0 {
      SeenBy(units, context, setup, Run(steps, context, setup), q);
    }
  }

  lemma {:induction false} SeenBy(units: seq<seq<Step>>, context: StepResults, setup: Setup, report: Report, q: nat)
    requires units != [] && Reached(units, 0, []) && Positive(setup.maxConcurrency)
    requires report == RunUnits(units, 0, [], context, setup) && 0 < q < |report.contexts|
    ensures q <= |units| && Reached(units, q, report.contexts[q])
    ensures forall p: nat, i: nat :: p < q && i < |units[p]| ==>
              MadeIn(units, p, i, report.contexts, setup, report.contexts[q])
  {
    var contexts := report.contexts;
    forall j: nat | j + 1 < |contexts|
      ensures Link(units, j, contexts[j], contexts[j + 1], setup) && (0 < j ==> contexts[j] <= contexts[j + 1])
    {
      ContextsLink(units, context, setup, report, j);
    }
    LinksMake(units, setup, contexts, q);
  }

  lemma LinksMake(units: seq<seq<Step>>, setup: Setup, contexts: seq<StepResults>, q: nat)
    requires 0 < q < |contexts|
    requires forall j: nat :: j + 1 < |contexts| ==> Link(units, j, contexts[j], contexts[j + 1], setup)
    requires forall j: nat :: 0 < j && j + 1 < |contexts| ==> contexts[j] <= contexts[j + 1]
    ensures q <= |units| && Reached(units, q, contexts[q])
    ensures forall p: nat, i: nat :: p < q && i < |units[p]| ==> MadeIn(units, p, i, contexts, setup, contexts[q])
  {
    assert Link(units, q - 1, contexts[q - 1], contexts[q], setup);
    forall p: nat, i: nat | p < q && i < |units[p]|
      ensures MadeIn(units, p, i, contexts, setup, contexts[q])
    {
      assert Link(units, p, contexts[p], contexts[p + 1], setup);
      ContextsGrow(contexts, p + 1, q);
      MadeLater(units[p], i, contexts[p], setup, contexts[p + 1], contexts[q]);
    }
  }
}
