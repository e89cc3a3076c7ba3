/** Splitting the declared steps into execution units. */
module WorkflowUnits {
  import opened Kernel
  import opened WorkflowSteps
  import opened WorkflowOptions

  /** `group_by_name.get(name)`: the index of the last group that names it. */
  function GroupIndex(groups: seq<seq<string>>, name: string): (index: Option<nat>)
    ensures index.Some? ==> index.value < |groups| && name in groups[index.value]
    ensures index.None? ==> forall j :: 0 <= j < |groups| ==> name !in groups[j]
  {
    if groups == [] then None
    else if name in groups[|groups| - 1] then Some(|groups| - 1)
    else GroupIndex(groups[..|groups| - 1], name)
  }

  lemma {:induction false} GroupIndexUnique(groups: seq<seq<string>>, name: string, j: nat)
    requires Disjoint(groups) && j < |groups| && name in groups[j]
    ensures GroupIndex(groups, name) == Some(j)
  {
    assert GroupIndex(groups, name).Some? && name in groups[GroupIndex(groups, name).value];
  }

  ghost predicate NoneEmpty<T>(units: seq<seq<T>>) {
    forall k :: 0 <= k < |units| ==> units[k] != []
  }

  /** Whether the next step joins the unit that was opened last. */
  predicate Joins(groups: seq<seq<string>>, last: seq<Step>, step: Step)
    requires last != []
  {
    && GroupIndex(groups, step.name).Some?
    && GroupIndex(groups, last[0].name) == GroupIndex(groups, step.name)
  }

  function Extend(groups: seq<seq<string>>, units: seq<seq<Step>>, step: Step): (r: seq<seq<Step>>)
    requires NoneEmpty(units)
    ensures NoneEmpty(r) && r != []
  {
    if units != [] && Joins(groups, units[|units| - 1], step) then
      units[..|units| - 1] + [units[|units| - 1] + [step]]
    else
      units + [[step]]
  }

  function Units(groups: seq<seq<string>>, steps: seq<Step>): (units: seq<seq<Step>>)
    ensures NoneEmpty(units)
  {
    if steps == [] then []
    else Extend(groups, Units(groups, steps[..|steps| - 1]), steps[|steps| - 1])
  }

  method GroupIntoUnits(steps: seq<Step>, options: Options) returns (units: seq<seq<Step>>)
    ensures units == Units(options.groups, steps)
  {
    var groups := options.groups;
    var groupByName: map<string, nat> := map[];
    for i := 0 to |groups|
      invariant forall name :: name in groupByName <==> GroupIndex(groups[..i], name).Some?
      invariant forall name :: name in groupByName ==> GroupIndex(groups[..i], name) == Some(groupByName[name])
    {
      ghost var before := groupByName;
      for j := 0 to |groups[i]|
        invariant forall name :: name in groupByName <==> name in before || name in groups[i][..j]
        invariant forall name :: name in groupByName ==>
          groupByName[name] == if name in groups[i][..j] then i else before[name]
      {
        assert groups[i][..j + 1] == groups[i][..j] + [groups[i][j]];
        groupByName := groupByName[groups[i][j] := i];
      }
      assert groups[i][..|groups[i]|] == groups[i];
      assert groups[..i + 1][..i] == groups[..i];
    }
    assert groups[..|groups|] == groups;
    units := [];
    for k := 0 to |steps|
      invariant NoneEmpty(units) && units == Units(groups, steps[..k])
    {
      var step := steps[k];
      ghost var before := units;
      if step.name in groupByName && units != []
         && units[|units| - 1][0].name in groupByName
         && groupByName[units[|units| - 1][0].name] == groupByName[step.name] {
        units := units[..|units| - 1] + [units[|units| - 1] + [step]];
      } else {
        units := units + [[step]];
      }
      assert units == Extend(groups, before, step);
      assert steps[..k + 1][..k] == steps[..k];
    }
    assert steps[..|steps|] == steps;
  }

  function Flatten(units: seq<seq<Step>>): seq<Step> {
    if units == [] then [] else Flatten(units[..|units| - 1]) + units[|units| - 1]
  }

  lemma {:induction false} FlattenConcat(a: seq<seq<Step>>, b: seq<seq<Step>>)
    ensures Flatten(a + b) == Flatten(a) + Flatten(b)
  {
    if b == [] {
      assert a + b == a;
    } else {
      FlattenConcat(a, b[..|b| - 1]);
      assert (a + b)[..|a + b| - 1] == a + b[..|b| - 1];
    }
  }

  lemma {:induction false} FlattenExtend(groups: seq<seq<string>>, units: seq<seq<Step>>, step: Step)
    requires NoneEmpty(units)
    ensures Flatten(Extend(groups, units, step)) == Flatten(units) + [step]
  {
    var r := Extend(groups, units, step);
    if units != [] && Joins(groups, units[|units| - 1], step) {
      assert r[..|r| - 1] == units[..|units| - 1];
    } else {
      assert r[..|r| - 1] == units;
    }
  }

  /** A unit that is one whole group, or one step of no group. */
  ghost predicate Whole(groups: seq<seq<string>>, unit: seq<Step>) {
    && unit != []
    && match GroupIndex(groups, unit[0].name)
       case None => |unit| == 1
       case Some(j) => Names(unit) == groups[j]
  }

  /** The unit still being filled: a prefix of its group. */
  ghost predicate Started(groups: seq<seq<string>>, unit: seq<Step>) {
    && unit != []
    && match GroupIndex(groups, unit[0].name)
       case None => |unit| == 1
       case Some(j) => |unit| <= |groups[j]| && Names(unit) == groups[j][..|unit|]
  }

  ghost predicate Splits(groups: seq<seq<string>>, steps: seq<Step>, k: nat, units: seq<seq<Step>>)
    requires k <= |steps|
  {
    && NoneEmpty(units)
    && Flatten(units) == steps[..k]
    && (forall q :: 0 <= q < |units| - 1 ==> Whole(groups, units[q]))
    && (units != [] ==> Started(groups, units[|units| - 1]))
  }

  /** The steps of a group are exactly the declared steps of its span. */
  lemma {:induction false} GroupSpan(groups: seq<seq<string>>, steps: seq<Step>, j: nat, lo: nat, p: nat)
    requires Distinct(Names(steps)) && Disjoint(groups)
    requires j < |groups| && p < |steps| && SliceAt(Names(steps), groups[j], lo)
    ensures GroupIndex(groups, steps[p].name) == Some(j) <==> lo <= p < lo + |groups[j]|
    ensures lo <= p < lo + |groups[j]| ==> groups[j][p - lo] == steps[p].name
  {
    var names, group, name := Names(steps), groups[j], steps[p].name;
    assert names[p] == name;
    assert forall t :: 0 <= t < |group| ==> group[t] == names[lo..lo + |group|][t] == names[lo + t];
    if name in group {
      GroupIndexUnique(groups, name, j);
      var t :| 0 <= t < |group| && group[t] == name;
      assert names[lo + t] == names[p];
    }
    if lo <= p < lo + |group| {
      assert group[p - lo] == names[lo + (p - lo)];
    }
  }

  /** The position a started unit's group occupies among the declared steps. */
  lemma {:induction false} StartedAt(groups: seq<seq<string>>, steps: seq<Step>, k: nat, last: seq<Step>, lo: nat)
    requires Distinct(Names(steps)) && k <= |steps|
    requires last != [] && |last| <= k && last == steps[k - |last|..k]
    requires GroupIndex(groups, last[0].name).Some? && Started(groups, last)
    requires SliceAt(Names(steps), groups[GroupIndex(groups, last[0].name).value], lo)
    ensures lo == k - |last|
  {
    var group := groups[GroupIndex(groups, last[0].name).value];
    assert Names(steps)[lo] == Names(steps)[lo..lo + |group|][0] == group[0] == Names(last)[0];
    assert Names(steps)[k - |last|] == Names(last)[0];
  }

  lemma LastOfFlatten(units: seq<seq<Step>>, steps: seq<Step>, k: nat)
    requires units != [] && k <= |steps| && Flatten(units) == steps[..k]
    ensures var last := units[|units| - 1]; |last| <= k && last == steps[k - |last|..k]
  {
  }

  lemma {:induction false} JoinsInsideSpan(groups: seq<seq<string>>, last: seq<Step>, step: Step, j: nat)
    requires last != [] && Started(groups, last) && GroupIndex(groups, last[0].name) == Some(j)
    requires GroupIndex(groups, step.name) == Some(j) <==> |last| < |groups[j]|
    requires |last| < |groups[j]| ==> groups[j][|last|] == step.name
    ensures Joins(groups, last, step) <==> !Whole(groups, last)
    ensures Joins(groups, last, step) ==> Started(groups, last + [step])
  {
    var group := groups[j];
    if |last| < |group| {
      assert Names(last + [step]) == Names(last) + [group[|last|]];
      assert group[..|last| + 1] == group[..|last|] + [group[|last|]];
    } else {
      assert group[..|last|] == group;
    }
  }

  /** A started unit is full exactly when the next step does not join it. */
  lemma JoinsExactlyWhenOpen(groups: seq<seq<string>>, steps: seq<Step>, k: nat, last: seq<Step>)
    requires Distinct(Names(steps)) && Disjoint(groups) && k < |steps|
    requires forall i :: 0 <= i < |groups| ==> IsSlice(Names(steps), groups[i])
    requires last != [] && |last| <= k && last == steps[k - |last|..k]
    requires Started(groups, last)
    ensures Joins(groups, last, steps[k]) <==> !Whole(groups, last)
    ensures Joins(groups, last, steps[k]) ==> Started(groups, last + [steps[k]])
  {
    var gi := GroupIndex(groups, last[0].name);
    if gi.Some? {
      var lo: nat :| SliceAt(Names(steps), groups[gi.value], lo);
      StartedAt(groups, steps, k, last, lo);
      GroupSpan(groups, steps, gi.value, lo, k);
      JoinsInsideSpan(groups, last, steps[k], gi.value);
    }
  }

  /** All steps of a started unit lie in the same group. */
  lemma {:induction false} SameGroup(groups: seq<seq<string>>, unit: seq<Step>, i: nat)
    requires Disjoint(groups) && Started(groups, unit) && i < |unit|
    ensures GroupIndex(groups, unit[i].name) == GroupIndex(groups, unit[0].name)
  {
    var gi := GroupIndex(groups, unit[0].name);
    if gi.Some? {
      assert Names(unit)[i] == groups[gi.value][..|unit|][i];
      GroupIndexUnique(groups, unit[i].name, gi.value);
    }
  }

  lemma {:induction false} NotInsideItsGroup(
      groups: seq<seq<string>>, steps: seq<Step>, k: nat, last: seq<Step>, j: nat, lo: nat)
    requires Distinct(Names(steps)) && Disjoint(groups) && k < |steps|
    requires GroupIndex(groups, steps[k].name) == Some(j) && SliceAt(Names(steps), groups[j], lo)
    requires k > 0 ==> Started(groups, last) && last[|last| - 1] == steps[k - 1] && !Joins(groups, last, steps[k])
    ensures groups[j] != [] && groups[j][0] == steps[k].name
  {
    GroupSpan(groups, steps, j, lo, k);
    if k > 0 {
      SameGroup(groups, last, |last| - 1);
      GroupSpan(groups, steps, j, lo, k - 1);
    }
  }

  lemma {:induction false} FrontIsStarted(groups: seq<seq<string>>, step: Step)
    requires var gi := GroupIndex(groups, step.name);
      gi.Some? ==> groups[gi.value] != [] && groups[gi.value][0] == step.name
    ensures Started(groups, [step])
  {
    var gi := GroupIndex(groups, step.name);
    if gi.Some? {
      assert Names([step]) == [groups[gi.value][0]] == groups[gi.value][..1];
    }
  }

  /** A step that opens a unit is the first of its group. */
  lemma OpensAtTheFront(groups: seq<seq<string>>, steps: seq<Step>, k: nat, last: seq<Step>)
    requires Distinct(Names(steps)) && Disjoint(groups) && k < |steps|
    requires forall i :: 0 <= i < |groups| ==> IsSlice(Names(steps), groups[i])
    requires k > 0 ==> Started(groups, last) && last[|last| - 1] == steps[k - 1] && !Joins(groups, last, steps[k])
    ensures Started(groups, [steps[k]])
  {
    var gi := GroupIndex(groups, steps[k].name);
    if gi.Some? {
      var lo: nat :| SliceAt(Names(steps), groups[gi.value], lo);
      NotInsideItsGroup(groups, steps, k, last, gi.value, lo);
    }
    FrontIsStarted(groups, steps[k]);
  }

  lemma ExtendSplits(groups: seq<seq<string>>, steps: seq<Step>, k: nat, units: seq<seq<Step>>)
    requires k < |steps| && Splits(groups, steps, k, units)
    requires units == [] ==> Started(groups, [steps[k]])
    requires units != [] ==>
      var last := units[|units| - 1];
      if Joins(groups, last, steps[k]) then Started(groups, last + [steps[k]])
      else Whole(groups, last) && Started(groups, [steps[k]])
    ensures Splits(groups, steps, k + 1, Extend(groups, units, steps[k]))
  {
    FlattenExtend(groups, units, steps[k]);
    assert steps[..k] + [steps[k]] == steps[..k + 1];
  }

  lemma SplitsOneMore(groups: seq<seq<string>>, steps: seq<Step>, k: nat, units: seq<seq<Step>>)
    requires Distinct(Names(steps)) && Disjoint(groups) && k < |steps|
    requires forall i :: 0 <= i < |groups| ==> IsSlice(Names(steps), groups[i])
    requires Splits(groups, steps, k, units)
    ensures Splits(groups, steps, k + 1, Extend(groups, units, steps[k]))
  {
    if units == [] {
      assert |Flatten(units)| == k;
      OpensAtTheFront(groups, steps, k, []);
    } else {
      var last := units[|units| - 1];
      LastOfFlatten(units, steps, k);
      JoinsExactlyWhenOpen(groups, steps, k, last);
      if !Joins(groups, last, steps[k]) {
        OpensAtTheFront(groups, steps, k, last);
      }
    }
    ExtendSplits(groups, steps, k, units);
  }

  lemma {:induction false} UnitsSplit(groups: seq<seq<string>>, steps: seq<Step>, k: nat)
    requires Distinct(Names(steps)) && Disjoint(groups) && k <= |steps|
    requires forall i :: 0 <= i < |groups| ==> IsSlice(Names(steps), groups[i])
    ensures Splits(groups, steps, k, Units(groups, steps[..k]))
  {
    if k > 0 {
      UnitsSplit(groups, steps, k - 1);
      assert steps[..k][..k - 1] == steps[..k - 1];
      SplitsOneMore(groups, steps, k - 1, Units(groups, steps[..k - 1]));
    }
  }

  /** Once every step is placed, the last unit is whole as well. */
  lemma LastIsWhole(groups: seq<seq<string>>, steps: seq<Step>, units: seq<seq<Step>>)
    requires Distinct(Names(steps)) && Splits(groups, steps, |steps|, units) && units != []
    requires forall i :: 0 <= i < |groups| ==> IsSlice(Names(steps), groups[i])
    ensures Whole(groups, units[|units| - 1])
  {
    var last := units[|units| - 1];
    LastOfFlatten(units, steps, |steps|);
    var gi := GroupIndex(groups, last[0].name);
    if gi.Some? {
      var lo: nat :| SliceAt(Names(steps), groups[gi.value], lo);
      StartedAt(groups, steps, |steps|, last, lo);
    }
  }

  lemma {:induction false} InSomeUnit(units: seq<seq<Step>>, step: Step)
    requires step in Flatten(units)
    ensures exists q :: 0 <= q < |units| && step in units[q]
  {
    if step !in units[|units| - 1] {
      InSomeUnit(units[..|units| - 1], step);
      var q :| 0 <= q < |units[..|units| - 1]| && step in units[..|units| - 1][q];
      assert step in units[q];
    } else {
      assert step in units[|units| - 1];
    }
  }

  /** The number of steps in the first `q` units. */
  function Offset(units: seq<seq<Step>>, q: nat): nat
    requires q <= |units|
  {
    if q == 0 then 0 else Offset(units, q - 1) + |units[q - 1]|
  }

  lemma {:induction false} FlattenUpTo(units: seq<seq<Step>>, q: nat)
    requires q <= |units|
    ensures |Flatten(units[..q])| == Offset(units, q)
  {
    if q > 0 {
      FlattenUpTo(units, q - 1);
      assert units[..q][..q - 1] == units[..q - 1];
    }
  }

  lemma FlattenAt(units: seq<seq<Step>>, q: nat)
    requires q < |units|
    ensures Flatten(units[..q + 1]) == Flatten(units[..q]) + units[q]
    ensures Offset(units, q) + |units[q]| <= |Flatten(units)|
    ensures Flatten(units)[..Offset(units, q)] == Flatten(units[..q])
    ensures Flatten(units)[Offset(units, q)..Offset(units, q) + |units[q]|] == units[q]
  {
    assert units[..q + 1][..q] == units[..q];
    assert units == units[..q + 1] + units[q + 1..];
    FlattenConcat(units[..q + 1], units[q + 1..]);
    FlattenUpTo(units, q);
  }

  lemma {:induction false} OffsetsGrow(units: seq<seq<Step>>, q: nat, r: nat)
    requires q < r <= |units|
    ensures Offset(units, q) + |units[q]| <= Offset(units, r)
  {
    if q + 1 < r {
      OffsetsGrow(units, q, r - 1);
    }
  }

  lemma NamesDiffer(steps: seq<Step>, a: nat, b: nat)
    requires Distinct(Names(steps)) && a < b < |steps|
    ensures steps[a].name != steps[b].name
  {
    assert Names(steps)[a] != Names(steps)[b];
  }

  lemma {:induction false} FlattenFirst(units: seq<seq<Step>>, q: nat)
    requires q < |units| && units[q] != []
    ensures Offset(units, q) < |Flatten(units)|
    ensures Flatten(units)[Offset(units, q)] == units[q][0]
  {
    FlattenAt(units, q);
    var a := Offset(units, q);
    assert Flatten(units)[a] == Flatten(units)[a..a + |units[q]|][0];
  }

  lemma FirstSteps(units: seq<seq<Step>>, q: nat, r: nat) returns (a: nat, b: nat)
    requires q < r < |units| && units[q] != [] && units[r] != []
    ensures a < b < |Flatten(units)|
    ensures Flatten(units)[a] == units[q][0] && Flatten(units)[b] == units[r][0]
  {
    FlattenFirst(units, q);
    FlattenFirst(units, r);
    OffsetsGrow(units, q, r);
    a, b := Offset(units, q), Offset(units, r);
  }

  /** Distinct names put every step in one unit only. */
  lemma {:induction false} UnitsShareNoStep(units: seq<seq<Step>>, steps: seq<Step>, q: nat, r: nat)
    requires Distinct(Names(steps)) && steps == Flatten(units)
    requires q < r < |units| && units[q] != [] && units[r] != []
    ensures units[q][0].name != units[r][0].name
  {
    var a, b := FirstSteps(units, q, r);
    NamesDiffer(steps, a, b);
  }

  lemma {:induction false} WholeIsOneGroup(groups: seq<seq<string>>, unit: seq<Step>, i: nat)
    requires Disjoint(groups) && Whole(groups, unit) && i < |unit|
    ensures GroupIndex(groups, unit[i].name) == GroupIndex(groups, unit[0].name)
  {
    var gi := GroupIndex(groups, unit[0].name);
    if gi.Some? {
      assert groups[gi.value][..|unit|] == groups[gi.value];
      SameGroup(groups, unit, i);
    }
  }

  lemma {:induction false} AllWhole(groups: seq<seq<string>>, steps: seq<Step>, units: seq<seq<Step>>)
    requires Splits(groups, steps, |steps|, units)
    requires units != [] ==> Whole(groups, units[|units| - 1])
    ensures Flatten(units) == steps && forall q :: 0 <= q < |units| ==> Whole(groups, units[q])
  {
    assert steps[..|steps|] == steps;
  }

  lemma {:induction false} UnitsFlatten(steps: seq<Step>, options: Options)
    requires Accepted(steps, options)
    ensures Flatten(Units(options.groups, steps)) == steps
    ensures forall q :: 0 <= q < |Units(options.groups, steps)| ==> Whole(options.groups, Units(options.groups, steps)[q])
  {
    var groups := options.groups;
    var units := Units(groups, steps);
    UnitsSplit(groups, steps, |steps|);
    assert steps[..|steps|] == steps;
    if units != [] {
      LastIsWhole(groups, steps, units);
    }
    AllWhole(groups, steps, units);
  }

  lemma GroupHasUnit(steps: seq<Step>, options: Options, j: nat) returns (q: nat)
    requires Accepted(steps, options) && j < |options.groups|
    ensures q < |Units(options.groups, steps)| && Names(Units(options.groups, steps)[q]) == options.groups[j]
  {
    var groups := options.groups;
    var units := Units(groups, steps);
    UnitsFlatten(steps, options);
    var lo: nat :| SliceAt(Names(steps), groups[j], lo);
    GroupSpan(groups, steps, j, lo, lo);
    InSomeUnit(units, steps[lo]);
    q :| 0 <= q < |units| && steps[lo] in units[q];
    var i :| 0 <= i < |units[q]| && units[q][i] == steps[lo];
    WholeIsOneGroup(groups, units[q], i);
  }

  /** Accepted options: the units flatten back to the declared steps, every unit is one step of no
      group or exactly one group, and every group is the content of exactly one unit. */
  lemma {:induction false} UnitsAreGroups(steps: seq<Step>, options: Options)
    requires Accepted(steps, options)
    ensures var units := Units(options.groups, steps);
      && Flatten(units) == steps
      && (forall q :: 0 <= q < |units| ==> Whole(options.groups, units[q]))
      && (forall j :: 0 <= j < |options.groups| ==> exists q :: 0 <= q < |units| && Names(units[q]) == options.groups[j])
      && (forall q, r :: 0 <= q < r < |units| ==> Names(units[q]) != Names(units[r]))
  {
    var units := Units(options.groups, steps);
    UnitsFlatten(steps, options);
    forall q, r | 0 <= q < r < |units|
      ensures Names(units[q]) != Names(units[r])
    {
      UnitsShareNoStep(units, steps, q, r);
      assert Names(units[q])[0] != Names(units[r])[0];
    }
    forall j | 0 <= j < |options.groups|
      ensures exists q :: 0 <= q < |units| && Names(units[q]) == options.groups[j]
    {
      var q := GroupHasUnit(steps, options, j);
    }
  }
}
