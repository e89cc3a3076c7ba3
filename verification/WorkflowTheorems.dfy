/** What holds of every run, whatever the engine answers and however groups are interleaved. */
module WorkflowTheorems {
  import opened Kernel
  import opened ExecutionTypes
  import opened OrderedDict
  import opened WorkflowSteps
  import opened ParallelResults
  import opened WorkflowOptions
  import opened WorkflowUnits
  import opened WorkflowRun

  // ----- sequences, dicts and the first stopping failure over concatenations -----

  lemma NamesConcat(a: seq<Step>, b: seq<Step>)
    ensures Names(a + b) == Names(a) + Names(b)
  {
  }

  lemma KeysConcat<K, V>(d: Dict<K, V>, e: Dict<K, V>)
    ensures Keys(d + e) == Keys(d) + Keys(e)
  {
  }

  lemma {:induction false} GetConcat<K, V>(d: Dict<K, V>, e: Dict<K, V>, key: K)
    ensures Get(d + e, key) == if Get(d, key).Some? then Get(d, key) else Get(e, key)
  {
    if d == [] {
      assert d + e == e;
    } else {
      GetConcat(d[1..], e, key);
      assert (d + e)[1..] == d[1..] + e;
    }
  }

  lemma {:induction false} FirstStoppingConcat(a: seq<Step>, b: seq<Step>, results: StepResults)
    ensures FirstStopping(a + b, results)
      == if FirstStopping(a, results).Some? then FirstStopping(a, results) else FirstStopping(b, results)
  {
    if a == [] {
      assert a + b == b;
    } else {
      FirstStoppingConcat(a[1..], b, results);
      assert (a + b)[1..] == a[1..] + b;
    }
  }

  lemma {:induction false} FirstStoppingCongruent(unit: seq<Step>, r: StepResults, t: StepResults)
    requires forall i :: 0 <= i < |unit| ==> Get(r, unit[i].name) == Get(t, unit[i].name)
    ensures FirstStopping(unit, r) == FirstStopping(unit, t)
  {
    if unit != [] {
      assert Get(r, unit[0].name) == Get(t, unit[0].name);
      forall i | 0 <= i < |unit[1..]|
        ensures Get(r, unit[1..][i].name) == Get(t, unit[1..][i].name)
      {
        assert unit[1..][i] == unit[i + 1];
      }
      FirstStoppingCongruent(unit[1..], r, t);
    }
  }

  lemma DistinctParts<T>(a: seq<T>, b: seq<T>)
    ensures Distinct(a + b) <==> Distinct(a) && Distinct(b) && forall x :: x in a ==> x !in b
  {
    var c := a + b;
    if Distinct(c) {
      forall x | x in a
        ensures x !in b
      {
        var i :| 0 <= i < |a| && a[i] == x;
        assert forall j :: 0 <= j < |b| ==> c[i] != c[|a| + j] == b[j];
      }
      assert Distinct(a) by {
        assert forall i :: 0 <= i < |a| ==> a[i] == c[i];
      }
      assert Distinct(b) by {
        assert forall i :: 0 <= i < |b| ==> b[i] == c[|a| + i];
      }
    }
    if Distinct(a) && Distinct(b) && forall x :: x in a ==> x !in b {
      forall i, j | 0 <= i < j < |c|
        ensures c[i] != c[j]
      {
        assert i < |a| ==> c[i] in a;
        assert |a| <= j ==> c[j] == b[j - |a|] && c[j] in b;
      }
    }
  }

  lemma {:induction false} SelectParts<T>(before: seq<T>, mid: seq<T>, after: seq<T>, ran: seq<T>)
    requires Distinct(before + mid + after) && forall x :: x in ran ==> x in mid
    ensures Select(before + mid + after, Elements(before + ran)) == before + Select(mid, Elements(ran))
    ensures Distinct(ran) ==> Distinct(before + ran)
  {
    DistinctParts(before + mid, after);
    DistinctParts(before, mid);
    DistinctParts(before, ran);
    var chosen := Elements(before + ran);
    SelectConcat(before + mid, after, chosen);
    SelectConcat(before, mid, chosen);
    SelectAll(before, chosen);
    SelectCongruent(mid, chosen, Elements(ran));
    SelectNone(after, chosen);
  }

  // ----- the state of a run between two units -----

  ghost function Before(units: seq<seq<Step>>, k: nat): seq<string>
    requires k <= |units|
  {
    Names(Flatten(units[..k]))
  }

  /** The first `k` units have run completely and nothing in them stopped the workflow. */
  ghost predicate Reached(units: seq<seq<Step>>, k: nat, done: StepResults)
    requires k <= |units|
  {
    && Distinct(Names(Flatten(units)))
    && NoneEmpty(units)
    && Keys(done) == Before(units, k)
    && FirstStopping(Flatten(units[..k]), done).None?
  }

  lemma BeforeNext(units: seq<seq<Step>>, k: nat) returns (after: seq<string>)
    requires k < |units|
    ensures Before(units, k + 1) == Before(units, k) + Names(units[k])
    ensures Names(Flatten(units)) == Before(units, k) + Names(units[k]) + after
  {
    FlattenAt(units, k);
    FlattenConcat(units[..k + 1], units[k + 1..]);
    assert units == units[..k + 1] + units[k + 1..];
    NamesConcat(Flatten(units[..k]), units[k]);
    NamesConcat(Flatten(units[..k + 1]), Flatten(units[k + 1..]));
    after := Names(Flatten(units[k + 1..]));
  }

  /** Adding one unit's results keeps the keys in declared order and the verdict of both parts. */
  lemma {:induction false} AddUnit(
      units: seq<seq<Step>>, k: nat, done: StepResults, results: StepResults, ran: seq<string>)
    requires k < |units| && Reached(units, k, done)
    requires Distinct(ran) && forall x :: x in ran ==> x in Names(units[k])
    requires Keys(results) == Select(Names(units[k]), Elements(ran))
    ensures Update(done, results) == done + results
    ensures Keys(done + results) == Select(Names(Flatten(units)), Elements(Before(units, k) + ran))
    ensures FirstStopping(Flatten(units[..k + 1]), done + results) == FirstStopping(units[k], results)
    ensures FirstStopping(Flatten(units[..k]), done + results).None?
  {
    var after := BeforeNext(units, k);
    var before, mid := Before(units, k), Names(units[k]);
    SelectParts(before, mid, after, ran);
    KeysConcat(done, results);
    SelectMembers(Names(Flatten(units)), Elements(before + ran));
    UpdateAppends(done, results);
    FlattenAt(units, k);
    FirstStoppingConcat(Flatten(units[..k]), units[k], done + results);
    DistinctParts(before + mid, after);
    DistinctParts(before, mid);
    forall i | 0 <= i < |Flatten(units[..k])|
      ensures Get(done + results, Flatten(units[..k])[i].name) == Get(done, Flatten(units[..k])[i].name)
    {
      assert before[i] in before;
      GetConcat(done, results, before[i]);
      GetFinds(done, before[i]);
    }
    FirstStoppingCongruent(Flatten(units[..k]), done + results, done);
    forall i | 0 <= i < |units[k]|
      ensures Get(done + results, units[k][i].name) == Get(results, units[k][i].name)
    {
      assert mid[i] in mid;
      GetConcat(done, results, mid[i]);
      GetFinds(done, mid[i]);
    }
    FirstStoppingCongruent(units[k], done + results, results);
  }

  // ----- the main results -----

  /** What a run that entered `entered` units and executed the steps `ran` must look like. */
  ghost predicate RunBooks(units: seq<seq<Step>>, entered: nat, end: RunEnd, ran: seq<string>) {
    var names := Names(Flatten(units));
    && entered <= |units|
    && Distinct(ran)
    && (forall x :: x in ran ==> x in Before(units, entered))
    && (0 < entered ==> forall x :: x in Before(units, entered - 1) ==> x in ran)
    && (end.Ended? ==>
          && Keys(end.result.stepResults) == Select(names, Elements(ran))
          && (end.result.success <==> end.result.stoppedAt.None?)
          && (end.result.success <==> end.result.error.None?)
          && (end.result.success ==> entered == |units| && Keys(end.result.stepResults) == names)
          && end.result.stoppedAt == StopName(FirstStopping(Flatten(units), end.result.stepResults))
          && end.result.error == StopText(FirstStopping(Flatten(units), end.result.stepResults)))
  }

  function StopName(found: Option<(Step, Result)>): Option<string> {
    if found.Some? then Some(found.value.0.name) else None
  }

  function StopText(found: Option<(Step, Result)>): Option<string> {
    if found.Some? then Some(StopError(found.value.0, found.value.1)) else None
  }

  lemma AllUnitsDone(units: seq<seq<Step>>, done: StepResults)
    requires Reached(units, |units|, done)
    ensures RunBooks(units, |units|, Ended(WorkflowResult(true, done, None, None)), Before(units, |units|) + [])
  {
    assert units[..|units|] == units;
    var names := Names(Flatten(units));
    assert Before(units, |units|) + [] == names;
    SelectAll(names, Elements(names));
    if 0 < |units| {
      var _ := BeforeNext(units, |units| - 1);
    }
  }

  /** A unit the run does not get past. */
  lemma {:induction false} RunEndsHere(units: seq<seq<Step>>, k: nat, done: StepResults, ran: seq<string>, end: RunEnd)
    requires k < |units| && Reached(units, k, done)
    requires Distinct(ran) && forall x :: x in ran ==> x in Names(units[k])
    requires end.Ended? ==>
      && !end.result.success && end.result.error == StopText(FirstStopping(Flatten(units), end.result.stepResults))
      && Keys(end.result.stepResults) == Select(Names(Flatten(units)), Elements(Before(units, k) + ran))
      && FirstStopping(Flatten(units), end.result.stepResults).Some?
      && end.result.stoppedAt == StopName(FirstStopping(Flatten(units), end.result.stepResults))
    ensures RunBooks(units, k + 1, end, Before(units, k) + ran)
  {
    var after := BeforeNext(units, k);
    SelectParts(Before(units, k), Names(units[k]), after, ran);
  }

  /** A unit that stops stops the workflow: its first stopping step is the first of all. */
  lemma StopIsGlobal(units: seq<seq<Step>>, k: nat, results: StepResults)
    requires k < |units| && FirstStopping(Flatten(units[..k + 1]), results).Some?
    ensures FirstStopping(Flatten(units), results) == FirstStopping(Flatten(units[..k + 1]), results)
  {
    FlattenConcat(units[..k + 1], units[k + 1..]);
    assert units == units[..k + 1] + units[k + 1..];
    FirstStoppingConcat(Flatten(units[..k + 1]), Flatten(units[k + 1..]), results);
  }

  lemma {:induction false} UnitNamesDistinct(units: seq<seq<Step>>, k: nat)
    requires k < |units| && Distinct(Names(Flatten(units)))
    ensures Distinct(Names(units[k]))
  {
    var after := BeforeNext(units, k);
    DistinctParts(Before(units, k) + Names(units[k]), after);
    DistinctParts(Before(units, k), Names(units[k]));
  }

  /** Once a unit returns without a stopping failure, the next one starts where it left off. */
  lemma {:induction false} NextReached(
      units: seq<seq<Step>>, k: nat, done: StepResults, results: StepResults, ran: seq<string>)
    requires k < |units| && Reached(units, k, done)
    requires Distinct(ran) && forall x :: x in ran ==> x in Names(units[k])
    requires Keys(results) == Select(Names(units[k]), Elements(ran)) == Names(units[k])
    requires FirstStopping(units[k], results).None?
    ensures Reached(units, k + 1, Update(done, results))
    ensures forall x :: x in Names(units[k]) ==> x in ran
  {
    AddUnit(units, k, done, results, ran);
    var _ := BeforeNext(units, k);
    KeysConcat(done, results);
    SelectMembers(Names(units[k]), Elements(ran));
  }

  /** Running a whole unit and then the rest is, as far as names go, running the rest after it. */
  lemma RanTogether<T>(before: seq<T>, mid: seq<T>, ran: seq<T>, rest: seq<T>)
    requires Distinct(before + mid + rest) && Distinct(ran) && forall x :: x in ran <==> x in mid
    ensures Distinct(before + (ran + rest))
    ensures Elements(before + (ran + rest)) == Elements(before + mid + rest)
    ensures forall x :: x in before + mid + rest <==> x in before + (ran + rest)
  {
    DistinctParts(before + mid, rest);
    DistinctParts(before, mid);
    DistinctParts(before, ran);
    DistinctParts(before + ran, rest);
    assert before + (ran + rest) == before + ran + rest;
    assert forall x :: x in before + mid + rest <==> x in before + (ran + rest);
  }

  lemma PrependUnit(units: seq<seq<Step>>, k: nat, ran: seq<string>, rest: Report)
    requires k < |units|
    requires Distinct(ran) && forall x :: x in ran <==> x in Names(units[k])
    requires RunBooks(units, rest.entered, rest.end, Before(units, k + 1) + rest.started)
    ensures RunBooks(units, rest.entered, rest.end, Before(units, k) + (ran + rest.started))
  {
    var after := BeforeNext(units, k);
    RanTogether(Before(units, k), Names(units[k]), ran, rest.started);
  }

  /** What a finished unit tells of the names of its steps. */
  ghost predicate UnitNames(unit: seq<Step>, report: UnitReport) {
    && Distinct(report.started)
    && (forall x :: x in report.started ==> x in Names(unit))
    && (report.conclusion.Results? ==>
          && Keys(report.conclusion.results) == Select(Names(unit), Elements(report.started))
          && (FirstStopping(unit, report.conclusion.results).None? ==> Keys(report.conclusion.results) == Names(unit)))
  }

  lemma UnitKeys(unit: seq<Step>, k: nat, context: StepResults, setup: Setup)
    requires unit != [] && Distinct(Names(unit)) && Positive(setup.maxConcurrency)
    ensures UnitNames(unit, RunUnit(unit, context, setup, setup.schedules(k)))
  {
    RunUnitBooks(unit, context, setup, setup.schedules(k));
  }

  /** A unit that stops the run, or that an exception escapes, closes the books. */
  lemma HaltingUnit(units: seq<seq<Step>>, k: nat, done: StepResults, unit: UnitReport)
    requires k < |units| && Reached(units, k, done) && UnitNames(units[k], unit)
    requires Judge(units[k], done, unit.conclusion).Halt?
    ensures RunBooks(units, k + 1, Judge(units[k], done, unit.conclusion).end, Before(units, k) + unit.started)
  {
    var end := Judge(units[k], done, unit.conclusion).end;
    if unit.conclusion.Results? {
      AddUnit(units, k, done, unit.conclusion.results, unit.started);
      StopIsGlobal(units, k, done + unit.conclusion.results);
    }
    RunEndsHere(units, k, done, unit.started, end);
  }

  /** A unit the run goes on from lets the next one start with all results so far. */
  lemma PassedUnit(units: seq<seq<Step>>, k: nat, done: StepResults, unit: UnitReport)
    requires k < |units| && Reached(units, k, done) && UnitNames(units[k], unit)
    requires Judge(units[k], done, unit.conclusion).GoOn?
    ensures Reached(units, k + 1, Judge(units[k], done, unit.conclusion).results)
    ensures Distinct(unit.started) && forall x :: x in unit.started <==> x in Names(units[k])
  {
    NextReached(units, k, done, unit.conclusion.results, unit.started);
  }

  lemma {:induction false} RunUnitsBooks(
      units: seq<seq<Step>>, k: nat, done: StepResults, context: StepResults, setup: Setup)
    requires k <= |units| && Reached(units, k, done) && Positive(setup.maxConcurrency)
    ensures var report := RunUnits(units, k, done, context, setup);
      RunBooks(units, report.entered, report.end, Before(units, k) + report.started)
    decreases |units| - k
  {
    if k == |units| {
      AllUnitsDone(units, done);
    } else {
      var unit := RunUnit(units[k], context, setup, setup.schedules(k));
      UnitNamesDistinct(units, k);
      UnitKeys(units[k], k, context, setup);
      match Judge(units[k], done, unit.conclusion)
      case Halt(end) =>
        HaltingUnit(units, k, done, unit);
      case GoOn(now) =>
        PassedUnit(units, k, done, unit);
        RunUnitsBooks(units, k + 1, now, now, setup);
        PrependUnit(units, k, unit.started, RunUnits(units, k + 1, now, now, setup));
    }
  }

  /** Over a whole run with accepted options, for every engine, clock, resolver and interleaving:
      no step is executed twice; a step has a result exactly when it was executed, in declared
      order; the run succeeds exactly when it names no stopping step, and then every step has a
      result; otherwise the step named is the first declared one whose result stops the workflow,
      every step of the earlier units ran and none of a later unit did. */
  lemma RunIsSound(steps: seq<Step>, context: StepResults, setup: Setup)
    requires Accepted(steps, setup.options) && Positive(setup.maxConcurrency)
    ensures var report, units := Run(steps, context, setup), Units(setup.options.groups, steps);
      && Distinct(report.started)
      && report.entered <= |units|
      && (forall x :: x in report.started ==> x in Names(Flatten(units[..report.entered])))
      && (0 < report.entered ==>
            forall x :: x in Names(Flatten(units[..report.entered - 1])) ==> x in report.started)
      && (report.end.Ended? ==>
            var result := report.end.result;
            && Keys(result.stepResults) == Select(Names(steps), Elements(report.started))
            && (result.success <==> result.stoppedAt.None?)
            && (result.success <==> result.error.None?)
            && (result.success ==> Keys(result.stepResults) == Names(steps))
            && result.stoppedAt == StopName(FirstStopping(steps, result.stepResults))
            && result.error == StopText(FirstStopping(steps, result.stepResults)))
  {
    var units := Units(setup.options.groups, steps);
    UnitsFlatten(steps, setup.options);
    assert units[..0] == [];
    assert Reached(units, 0, []);
    RunBooksFromStart(units, context, setup, Run(steps, context, setup));
  }

  lemma {:induction false} RunBooksFromStart(units: seq<seq<Step>>, context: StepResults, setup: Setup, report: Report)
    requires Reached(units, 0, []) && Positive(setup.maxConcurrency)
    requires report == RunUnits(units, 0, [], context, setup)
    ensures RunBooks(units, report.entered, report.end, report.started)
  {
    RunUnitsBooks(units, 0, [], context, setup);
    assert units[..0] == [];
    assert Before(units, 0) + report.started == report.started;
  }
}
