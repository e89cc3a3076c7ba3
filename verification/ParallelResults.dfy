/** What a parallel unit returns once all of its futures are collected. */
module ParallelResults {
  import opened Kernel
  import opened ExecutionTypes
  import opened OrderedDict
  import opened WorkflowSteps
  import opened ParallelGroup

  /** How a unit ends: its results, or what propagates out of the run. */
  datatype Conclusion =
    | Results(results: StepResults)
    | Propagates(exn: Exn)
    | PropagatesGroup(exns: seq<Exn>)

  function Gather(steps: seq<Step>, completed: map<nat, Result>, from: nat): StepResults
    requires from <= |steps|
    decreases |steps| - from
  {
    if from == |steps| then []
    else (if from in completed then [(steps[from].name, completed[from])] else [])
         + Gather(steps, completed, from + 1)
  }

  function GatherRaised(steps: seq<Step>, raised: map<nat, Exn>, from: nat): seq<Exn>
    requires from <= |steps|
    decreases |steps| - from
  {
    if from == |steps| then []
    else (if from in raised then [raised[from]] else []) + GatherRaised(steps, raised, from + 1)
  }

  function Conclude(steps: seq<Step>, s: State): Conclusion {
    if s.raised == map[] then Results(Gather(steps, s.completed, 0))
    else
      var exns := GatherRaised(steps, s.raised, 0);
      if |exns| == 1 then Propagates(exns[0]) else PropagatesGroup(exns)
  }

  function FirstStopping(unit: seq<Step>, results: StepResults): Option<(Step, Result)> {
    if unit == [] then None
    else
      match Get(results, unit[0].name)
      case Some(result) =>
        if Stops(unit[0], result) then Some((unit[0], result)) else FirstStopping(unit[1..], results)
      case None => FirstStopping(unit[1..], results)
  }

  // ----- reading the gathered results -----

  lemma {:induction false} GatherGets(steps: seq<Step>, completed: map<nat, Result>, from: nat, i: nat)
    requires Distinct(Names(steps)) && i < |steps| && from <= |steps|
    ensures Get(Gather(steps, completed, from), steps[i].name)
      == if from <= i && i in completed then Some(completed[i]) else None
    decreases |steps| - from
  {
    if from < |steps| {
      GatherGets(steps, completed, from + 1, i);
      assert Names(steps)[from] == Names(steps)[i] ==> from == i;
      if from in completed {
        assert Gather(steps, completed, from)[1..] == Gather(steps, completed, from + 1);
      } else {
        assert Gather(steps, completed, from) == Gather(steps, completed, from + 1);
      }
    }
  }

  ghost function CompletedNames(steps: seq<Step>, completed: map<nat, Result>): set<string> {
    set i | i in completed && i < |steps| :: steps[i].name
  }

  /** The keys appear in declared order, whatever the completion order was. */
  lemma {:induction false} GatherKeys(steps: seq<Step>, completed: map<nat, Result>, from: nat)
    requires Distinct(Names(steps)) && from <= |steps|
    ensures Keys(Gather(steps, completed, from)) == Select(Names(steps)[from..], CompletedNames(steps, completed))
    decreases |steps| - from
  {
    if from < |steps| {
      GatherKeys(steps, completed, from + 1);
      var name, chosen := Names(steps)[from], CompletedNames(steps, completed);
      assert Names(steps)[from..] == [name] + Names(steps)[from + 1..];
      assert name in chosen <==> from in completed by {
        assert forall i :: 0 <= i < |steps| && Names(steps)[i] == name ==> i == from;
        assert forall i :: i in completed && i < |steps| && steps[i].name == name ==> Names(steps)[i] == name;
      }
      assert Keys(Gather(steps, completed, from))
          == (if from in completed then [name] else []) + Keys(Gather(steps, completed, from + 1));
    }
  }

  lemma {:induction false} FirstStoppingFinds(unit: seq<Step>, results: StepResults)
    ensures FirstStopping(unit, results).Some? ==>
      exists i :: 0 <= i < |unit| && IsFirstStopping(unit, results, i)
        && FirstStopping(unit, results).value == (unit[i], Get(results, unit[i].name).value)
    ensures FirstStopping(unit, results).Some? ==>
      !FirstStopping(unit, results).value.0.continueOnFailure && !FirstStopping(unit, results).value.1.success
    ensures FirstStopping(unit, results).None? ==>
      forall i :: 0 <= i < |unit| ==> !StopsIn(unit[i], results)
  {
    if unit != [] && !StopsIn(unit[0], results) {
      FirstStoppingFinds(unit[1..], results);
      if FirstStopping(unit, results).Some? {
        var i :| 0 <= i < |unit[1..]| && IsFirstStopping(unit[1..], results, i)
          && FirstStopping(unit[1..], results).value == (unit[1..][i], Get(results, unit[1..][i].name).value);
        forall j | 0 <= j < i + 1
          ensures !StopsIn(unit[j], results)
        {
          if j > 0 {
            assert unit[j] == unit[1..][j - 1];
          }
        }
        assert IsFirstStopping(unit, results, i + 1);
      } else {
        forall i | 0 <= i < |unit|
          ensures !StopsIn(unit[i], results)
        {
          if i > 0 {
            assert unit[i] == unit[1..][i - 1];
          }
        }
      }
    } else if unit != [] {
      assert IsFirstStopping(unit, results, 0);
    }
  }

  ghost predicate StopsIn(step: Step, results: StepResults) {
    Get(results, step.name).Some? && !Get(results, step.name).value.success && !step.continueOnFailure
  }

  ghost predicate IsFirstStopping(unit: seq<Step>, results: StepResults, i: nat) {
    && i < |unit|
    && StopsIn(unit[i], results)
    && forall j :: 0 <= j < i ==> !StopsIn(unit[j], results)
  }

  // ----- the main results about one group -----

  ghost predicate WasCancelled(s: State, i: nat) {
    Has(s, i, Notified)
  }

  /** However a complete run was interleaved, every step ended in exactly one way, it ran exactly
      when it was not cancelled, and nothing is cancelled unless a step that stops was collected. */
  lemma {:induction false} EveryStepAccountedFor(g: Group, actions: seq<Action>, s: State, i: nat)
    requires Runnable(g) && Replay(g, Init(g), actions) == Some(s) && Final(s)
    requires i < |g.steps|
    ensures i in s.completed || i in s.raised || WasCancelled(s, i)
    ensures !(i in s.completed && i in s.raised)
    ensures WasCancelled(s, i) <==> i !in s.started
    ensures WasCancelled(s, i) ==> i !in s.completed && i !in s.raised
    ensures WasCancelled(s, i) ==>
              exists j :: j in s.completed && j != i && j < |g.steps|
                          && !s.completed[j].success && !g.steps[j].continueOnFailure
    ensures i in s.completed ==> g.outcomes[i] == Returned(s.completed[i])
    ensures i in s.raised ==> g.outcomes[i] == Raised(s.raised[i])
    ensures Distinct(s.started)
  {
    EveryRunIsShort(g, actions);
    assert i in s.collected;
    assert Has(s, i, Finished) || Has(s, i, Notified);
    if WasCancelled(s, i) {
      var j :| j in s.completed && Failing(g, j);
      assert At(g, s, j);
    }
  }

  lemma FinalPartition(g: Group, s: State, i: nat)
    requires Inv(g, s) && Final(s) && i < |g.steps|
    ensures i in s.completed || i in s.raised || WasCancelled(s, i)
    ensures i in s.started <==> i in s.completed || i in s.raised
    ensures WasCancelled(s, i) ==> exists j :: j in s.completed && j != i && Failing(g, j)
  {
    assert i in s.collected;
    assert Has(s, i, Finished) || Has(s, i, Notified);
  }

  /** The positions from `from` on that raised, in ascending order. */
  ghost function RaisedFrom(n: nat, raised: map<nat, Exn>, from: nat): seq<nat>
    requires from <= n
    decreases n - from
  {
    if from == n then []
    else if from in raised then [from] + RaisedFrom(n, raised, from + 1)
    else RaisedFrom(n, raised, from + 1)
  }

  lemma {:induction false} RaisedFromMember(n: nat, raised: map<nat, Exn>, from: nat, i: nat)
    requires from <= n
    ensures i in RaisedFrom(n, raised, from) <==> from <= i < n && i in raised
    decreases n - from
  {
    if from < n {
      RaisedFromMember(n, raised, from + 1, i);
    }
  }

  lemma {:induction false} RaisedFromAscends(n: nat, raised: map<nat, Exn>, from: nat)
    requires from <= n
    ensures forall a :: 0 <= a < |RaisedFrom(n, raised, from)| ==> from <= RaisedFrom(n, raised, from)[a] < n
    ensures forall a, b :: 0 <= a < b < |RaisedFrom(n, raised, from)| ==>
              RaisedFrom(n, raised, from)[a] < RaisedFrom(n, raised, from)[b]
    decreases n - from
  {
    if from < n {
      RaisedFromAscends(n, raised, from + 1);
    }
  }

  lemma {:induction false} GatherRaisedAt(steps: seq<Step>, raised: map<nat, Exn>, from: nat, a: nat)
    requires from <= |steps|
    ensures |GatherRaised(steps, raised, from)| == |RaisedFrom(|steps|, raised, from)|
    ensures a < |RaisedFrom(|steps|, raised, from)| ==>
              && RaisedFrom(|steps|, raised, from)[a] in raised
              && GatherRaised(steps, raised, from)[a] == raised[RaisedFrom(|steps|, raised, from)[a]]
    decreases |steps| - from
  {
    if from < |steps| {
      if from in raised {
        GatherRaisedAt(steps, raised, from + 1, if a == 0 then 0 else a - 1);
      } else {
        GatherRaisedAt(steps, raised, from + 1, a);
        assert GatherRaised(steps, raised, from) == GatherRaised(steps, raised, from + 1);
      }
    }
  }

  /** `order` lists, in declared order, the steps that ran and raised. */
  ghost predicate Raisers(g: Group, s: State, order: seq<nat>)
    requires Runnable(g)
  {
    && (forall a :: 0 <= a < |order| ==> order[a] < |g.steps|)
    && (forall a, b :: 0 <= a < b < |order| ==> order[a] < order[b])
    && (forall i :: 0 <= i < |g.steps| ==> (i in order <==> i in s.started && g.outcomes[i].Raised?))
  }

  lemma RaisedAt(g: Group, s: State, i: nat)
    requires Inv(g, s) && Final(s)
    ensures i in s.raised <==> i < |g.steps| && i in s.started && g.outcomes[i].Raised?
    ensures i in s.raised ==> g.outcomes[i] == Raised(s.raised[i])
  {
    assert At(g, s, i);
    if i < |g.steps| {
      FinalPartition(g, s, i);
    }
  }

  /** Exceptions take precedence over results: a unit concludes with results exactly when no step that
      ran raised; a lone exception propagates as itself, several as a group in declared order. */
  lemma ExceptionsTakePrecedence(g: Group, s: State) returns (order: seq<nat>)
    requires Inv(g, s) && Final(s)
    ensures Raisers(g, s, order)
    ensures match Conclude(g.steps, s)
      case Results(_) => order == []
      case Propagates(exn) => |order| == 1 && g.outcomes[order[0]] == Raised(exn)
      case PropagatesGroup(exns) =>
        && 2 <= |order| == |exns|
        && forall a :: 0 <= a < |order| ==> g.outcomes[order[a]] == Raised(exns[a])
  {
    order := RaisedFrom(|g.steps|, s.raised, 0);
    RaisedFromAscends(|g.steps|, s.raised, 0);
    forall i | 0 <= i < |g.steps|
      ensures i in order <==> i in s.started && g.outcomes[i].Raised?
    {
      RaisedFromMember(|g.steps|, s.raised, 0, i);
      RaisedAt(g, s, i);
    }
    var exns := GatherRaised(g.steps, s.raised, 0);
    GatherRaisedAt(g.steps, s.raised, 0, 0);
    forall a | 0 <= a < |order|
      ensures g.outcomes[order[a]] == Raised(exns[a])
    {
      GatherRaisedAt(g.steps, s.raised, 0, a);
      RaisedAt(g, s, order[a]);
    }
    if s.raised == map[] {
      assert order == [];
    } else {
      var i :| i in s.raised;
      RaisedAt(g, s, i);
      RaisedFromMember(|g.steps|, s.raised, 0, i);
    }
  }

  lemma ConcludeGets(g: Group, s: State, i: nat)
    requires Inv(g, s) && Final(s) && Distinct(Names(g.steps)) && Conclude(g.steps, s).Results?
    requires i < |g.steps|
    ensures Get(Conclude(g.steps, s).results, g.steps[i].name)
      == if i in s.started then Some(g.outcomes[i].result) else None
    ensures i in s.started ==> g.outcomes[i].Returned?
  {
    FinalPartition(g, s, i);
    assert i !in s.raised;
    GatherGets(g.steps, s.completed, 0, i);
  }

  /** A unit that returns without a stopping failure has a result for every one of its steps. */
  lemma NoStopMeansAllResults(g: Group, s: State)
    requires Inv(g, s) && Final(s) && Distinct(Names(g.steps)) && Conclude(g.steps, s).Results?
    requires FirstStopping(g.steps, Conclude(g.steps, s).results).None?
    ensures forall i :: 0 <= i < |g.steps| ==> i in s.completed && !Failing(g, i)
    ensures Keys(Conclude(g.steps, s).results) == Names(g.steps)
  {
    var results := Conclude(g.steps, s).results;
    FirstStoppingFinds(g.steps, results);
    forall i: nat | i in s.completed
      ensures !Failing(g, i)
    {
      assert Has(s, i, Finished);
      GatherGets(g.steps, s.completed, 0, i);
      assert !StopsIn(g.steps[i], results);
    }
    forall i: nat | i < |g.steps|
      ensures i in s.completed
      ensures Names(g.steps)[i] in CompletedNames(g.steps, s.completed)
    {
      FinalPartition(g, s, i);
      assert i !in s.raised;
      assert g.steps[i].name in CompletedNames(g.steps, s.completed);
    }
    GatherKeys(g.steps, s.completed, 0);
    assert Names(g.steps)[0..] == Names(g.steps);
    SelectAll(Names(g.steps), CompletedNames(g.steps, s.completed));
  }

  ghost function AllReturned(g: Group): map<nat, Result> {
    map i: nat | i < |g.outcomes| && g.outcomes[i].Returned? :: g.outcomes[i].result
  }

  ghost function AllRaised(g: Group): map<nat, Exn> {
    map i: nat | i < |g.outcomes| && g.outcomes[i].Raised? :: g.outcomes[i].exn
  }

  /** With no failure that stops, every interleaving ends in the one conclusion that running all
      the steps gives, raised exceptions included. */
  lemma NoFailureIsScheduleFree(g: Group, schedule: Schedule)
    requires Runnable(g) && forall i :: 0 <= i < |g.steps| ==> !Failing(g, i)
    ensures RunGroup(g, schedule).completed == AllReturned(g)
    ensures RunGroup(g, schedule).raised == AllRaised(g)
  {
    var s := RunGroup(g, schedule);
    forall i: nat | i < |g.steps|
      ensures i in s.completed <==> g.outcomes[i].Returned?
      ensures i in s.raised <==> g.outcomes[i].Raised?
    {
      FinalPartition(g, s, i);
    }
    forall i | i in s.completed || i in s.raised
      ensures i < |g.steps|
    {
      assert Has(s, i, Finished);
    }
    assert s.completed.Keys == AllReturned(g).Keys;
    assert s.raised.Keys == AllRaised(g).Keys;
  }

  /** When no step raises, whether the workflow stops here does not depend on the interleaving:
      it stops exactly when some step's outcome is a stopping failure; and when it does not stop,
      neither do the results. */
  lemma StoppingIsScheduleFree(g: Group, schedule: Schedule, other: Schedule)
    requires Runnable(g) && Distinct(Names(g.steps))
    requires forall i :: 0 <= i < |g.steps| ==> g.outcomes[i].Returned?
    ensures var c, d := Conclude(g.steps, RunGroup(g, schedule)), Conclude(g.steps, RunGroup(g, other));
      && c.Results?
      && (FirstStopping(g.steps, c.results).Some? <==> exists i :: 0 <= i < |g.steps| && Failing(g, i))
      && (FirstStopping(g.steps, c.results).None? ==> c == d && Keys(c.results) == Names(g.steps))
  {
    var s := RunGroup(g, schedule);
    forall i: nat
      ensures i !in s.raised
    {
      assert Has(s, i, Finished) ==> g.outcomes[i].Returned?;
    }
    assert s.raised == map[];
    var results := Conclude(g.steps, s).results;
    if FirstStopping(g.steps, results).None? {
      NoStopMeansAllResults(g, s);
      NoFailureIsScheduleFree(g, schedule);
      NoFailureIsScheduleFree(g, other);
    } else {
      FirstStoppingFinds(g.steps, results);
      var i :| 0 <= i < |g.steps| && IsFirstStopping(g.steps, results, i)
        && FirstStopping(g.steps, results).value == (g.steps[i], Get(results, g.steps[i].name).value);
      ConcludeGets(g, s, i);
      assert Failing(g, i);
    }
  }

  /** A one-element group behaves as its step run inline, exceptions included. */
  lemma SingletonGroup(step: Step, outcome: Outcome, workers: nat, schedule: Schedule)
    requires 0 < workers
    ensures var s := RunGroup(Group([step], [outcome], workers), schedule);
      && s.started == [0]
      && Conclude([step], s) == match outcome
                                case Returned(result) => Results([(step.name, result)])
                                case Raised(exn) => Propagates(exn)
  {
    var g := Group([step], [outcome], workers);
    var s := RunGroup(g, schedule);
    FinalPartition(g, s, 0);
    forall i | i in s.completed || i in s.raised || i in s.started
      ensures i == 0
    {
      assert Has(s, i, Finished) || Has(s, i, Running);
    }
    assert 0 in s.started;
    DistinctSingleton(s.started, 0);
    match outcome {
      case Returned(result) =>
        assert s.completed == map[0 := result] && s.raised == map[];
        assert Gather([step], s.completed, 1) == [];
      case Raised(exn) =>
        assert s.raised == map[0 := exn];
        assert 0 in s.raised;
        assert GatherRaised([step], s.raised, 1) == [];
        assert GatherRaised([step], s.raised, 0) == [exn];
    }
  }
}
