/** Which options a workflow accepts, and how accepted options split its steps into units. */
module WorkflowOptions {
  import opened Kernel
  import opened WorkflowSteps

  datatype WorkflowError =
    | BlankName(field: string)
    | EmptyGroup
    | NameInTwoGroups(name: string)
    | UnknownSteps(names: set<string>)
    | NotContiguous(group: seq<string>)

  // ----- checks that need no workflow -----

  /** No name appears twice, neither inside one group nor across two. */
  ghost predicate Disjoint(groups: seq<seq<string>>) {
    && (forall i :: 0 <= i < |groups| ==> Distinct(groups[i]))
    && (forall i, j, x :: 0 <= i < j < |groups| && x in groups[i] ==> x !in groups[j])
  }

  ghost predicate GoodGroups(groups: seq<seq<string>>) {
    && (forall i :: 0 <= i < |groups| ==> groups[i] != [])
    && (forall i, x :: 0 <= i < |groups| && x in groups[i] ==> !Blank(x))
    && Disjoint(groups)
  }

  method CheckGroups(groups: seq<seq<string>>) returns (error: Option<WorkflowError>)
    ensures error.None? <==> GoodGroups(groups)
    ensures error == Some(EmptyGroup) ==> [] in groups
    ensures error.Some? && error.value.NameInTwoGroups? ==> !Disjoint(groups)
    ensures error.Some? && error.value.BlankName? ==>
              error.value.field == "parallel_groups" && exists i, x :: 0 <= i < |groups| && x in groups[i] && Blank(x)
    ensures error.Some? ==> error.value.EmptyGroup? || error.value.NameInTwoGroups? || error.value.BlankName?
  {
    var seen: set<string> := {};
    for i := 0 to |groups|
      invariant GoodGroups(groups[..i])
      invariant forall x :: x in seen <==> exists k :: 0 <= k < i && x in groups[k]
    {
      var group := groups[i];
      if group == [] {
        assert groups[i] == [];
        return Some(EmptyGroup);
      }
      ghost var before := seen;
      for j := 0 to |group|
        invariant forall x :: x in seen <==> x in before || x in group[..j]
        invariant Distinct(group[..j])
        invariant forall x :: x in group[..j] ==> !Blank(x) && x !in before
      {
        var name := group[j];
        assert name in groups[i];
        if Blank(name) {
          return Some(BlankName("parallel_groups"));
        }
        if name in seen {
          TwiceIsNotDisjoint(groups, i, j);
          return Some(NameInTwoGroups(name));
        }
        assert group[..j + 1] == group[..j] + [name];
        seen := seen + {name};
      }
      assert group[..|group|] == group;
      assert groups[..i + 1] == groups[..i] + [group];
    }
    assert groups[..|groups|] == groups;
    return None;
  }

  lemma TwiceIsNotDisjoint(groups: seq<seq<string>>, i: nat, j: nat)
    requires i < |groups| && j < |groups[i]|
    requires groups[i][j] in groups[i][..j] || exists k :: 0 <= k < i && groups[i][j] in groups[k]
    ensures !Disjoint(groups)
  {
    var name := groups[i][j];
    if name in groups[i][..j] {
      var k :| 0 <= k < j && groups[i][..j][k] == name;
      assert groups[i][k] == groups[i][j];
    } else {
      var k :| 0 <= k < i && name in groups[k];
      assert name in groups[i];
    }
  }

  /** The checks made when options are built. */
  method CheckOptions(options: Options) returns (error: Option<WorkflowError>)
    ensures error.None? <==>
      && (forall name :: name in options.resolvers ==> !Blank(name))
      && GoodGroups(options.groups)
      && (forall name :: name in options.notBefore ==> !Blank(name))
    ensures error.Some? ==>
      match error.value
      case BlankName(field) =>
        || (field == "request_resolvers" && exists name :: name in options.resolvers && Blank(name))
        || (field == "parallel_groups"
            && exists i, name :: 0 <= i < |options.groups| && name in options.groups[i] && Blank(name))
        || (field == "not_before" && exists name :: name in options.notBefore && Blank(name))
      case EmptyGroup => [] in options.groups
      case NameInTwoGroups(name) => !Disjoint(options.groups)
      case _ => false
  {
    if exists name :: name in options.resolvers && Blank(name) {
      return Some(BlankName("request_resolvers"));
    }
    error := CheckGroups(options.groups);
    if error.None? && exists name :: name in options.notBefore && Blank(name) {
      return Some(BlankName("not_before"));
    }
  }

  // ----- checks against the declared steps -----

  function Position(names: seq<string>, name: string): (i: nat)
    requires name in names
    ensures i < |names| && names[i] == name
  {
    if names[0] == name then 0 else 1 + Position(names[1..], name)
  }

  function Indexes(names: seq<string>, group: seq<string>): (indexes: seq<nat>)
    requires forall x :: x in group ==> x in names
    ensures |indexes| == |group|
    ensures forall i :: 0 <= i < |group| ==> indexes[i] < |names| && names[indexes[i]] == group[i]
  {
    seq(|group|, i requires 0 <= i < |group| => assert group[i] in group; Position(names, group[i]))
  }

  predicate Ascending(s: seq<nat>) {
    forall i, j :: 0 <= i < j < |s| ==> s[i] <= s[j]
  }

  function Insert(x: nat, sorted: seq<nat>): (r: seq<nat>)
    ensures multiset(r) == multiset([x] + sorted)
  {
    if sorted == [] || x <= sorted[0] then [x] + sorted
    else
      assert sorted == [sorted[0]] + sorted[1..];
      [sorted[0]] + Insert(x, sorted[1..])
  }

  lemma {:induction false} InsertAbove(x: nat, sorted: seq<nat>, low: nat)
    requires low <= x && forall y :: y in sorted ==> low <= y
    ensures forall k :: 0 <= k < |Insert(x, sorted)| ==> low <= Insert(x, sorted)[k]
  {
    var r := Insert(x, sorted);
    forall k | 0 <= k < |r|
      ensures low <= r[k]
    {
      assert r[k] in multiset(r);
      assert r[k] in [x] + sorted;
    }
  }

  lemma {:induction false} InsertAscending(x: nat, sorted: seq<nat>)
    requires Ascending(sorted)
    ensures Ascending(Insert(x, sorted))
  {
    if sorted != [] && sorted[0] < x {
      InsertAscending(x, sorted[1..]);
      InsertAbove(x, sorted[1..], sorted[0]);
    }
  }

  function Sorted(s: seq<nat>): (r: seq<nat>)
    ensures multiset(r) == multiset(s) && |r| == |s|
  {
    if s == [] then []
    else
      assert s == [s[0]] + s[1..];
      var r := Insert(s[0], Sorted(s[1..]));
      assert |multiset(r)| == |multiset(s)|;
      r
  }

  lemma {:induction false} SortedAscends(s: seq<nat>)
    ensures Ascending(Sorted(s))
  {
    if s != [] {
      SortedAscends(s[1..]);
      InsertAscending(s[0], Sorted(s[1..]));
    }
  }

  function Max(s: seq<nat>): nat
    requires s != []
  {
    if |s| == 1 || Max(s[1..]) <= s[0] then s[0] else Max(s[1..])
  }

  function Min(s: seq<nat>): nat
    requires s != []
  {
    if |s| == 1 || s[0] <= Min(s[1..]) then s[0] else Min(s[1..])
  }

  /** The engine's test of one group, exactly as it computes it. */
  predicate PassesOrderTest(names: seq<string>, group: seq<string>)
    requires group != [] && forall x :: x in group ==> x in names
  {
    var indexes := Indexes(names, group);
    var sorted := Sorted(indexes);
    && (forall i :: 0 <= i < |sorted| ==> sorted[i] < |names|)
    && group == seq(|sorted|, i requires 0 <= i < |sorted| && sorted[i] < |names| => names[sorted[i]])
    && Max(indexes) - Min(indexes) + 1 == |indexes|
  }

  ghost predicate SliceAt(names: seq<string>, group: seq<string>, lo: nat) {
    lo + |group| <= |names| && names[lo..lo + |group|] == group
  }

  ghost predicate IsSlice(names: seq<string>, group: seq<string>) {
    exists lo: nat :: SliceAt(names, group, lo)
  }

  lemma {:induction false} SortedIsIdentity(s: seq<nat>)
    requires Ascending(s)
    ensures Sorted(s) == s
  {
    if s != [] {
      SortedIsIdentity(s[1..]);
      assert s == [s[0]] + s[1..];
    }
  }

  lemma {:induction false} AscendingExtremes(s: seq<nat>)
    requires s != [] && Ascending(s)
    ensures Min(s) == s[0] && Max(s) == s[|s| - 1]
  {
    if |s| > 1 {
      AscendingExtremes(s[1..]);
    }
  }

  /** Strictly ascending numbers spanning exactly their count leave no gap. */
  lemma {:induction false} NoGap(s: seq<nat>, i: nat, j: nat)
    requires forall k :: 0 <= k < |s| - 1 ==> s[k] < s[k + 1]
    requires i <= j < |s|
    ensures s[i] + (j - i) <= s[j]
    decreases j - i
  {
    if i < j {
      NoGap(s, i, j - 1);
      assert s[j - 1] < s[j - 1 + 1];
    }
  }

  ghost predicate At(names: seq<string>, group: seq<string>, s: seq<nat>) {
    |s| == |group| && forall i :: 0 <= i < |s| ==> s[i] < |names| && names[s[i]] == group[i]
  }

  lemma SamePositions(names: seq<string>, group: seq<string>, s: seq<nat>, t: seq<nat>)
    requires Distinct(names) && At(names, group, s) && At(names, group, t)
    ensures s == t
  {
    forall i | 0 <= i < |s|
      ensures s[i] == t[i]
    {
      assert names[s[i]] == group[i] == names[t[i]];
    }
  }

  lemma ConsecutiveIsSlice(names: seq<string>, group: seq<string>, s: seq<nat>)
    requires Distinct(group) && group != []
    requires At(names, group, s) && Ascending(s) && s[|s| - 1] - s[0] + 1 == |s|
    ensures SliceAt(names, group, s[0])
  {
    forall k | 0 <= k < |s| - 1
      ensures s[k] < s[k + 1]
    {
      assert group[k] != group[k + 1];
    }
    forall i | 0 <= i < |s|
      ensures s[i] == s[0] + i
    {
      NoGap(s, 0, i);
      NoGap(s, i, |s| - 1);
    }
  }

  lemma PassingIsSlice(names: seq<string>, group: seq<string>)
    requires Distinct(names) && Distinct(group) && group != []
    requires forall x :: x in group ==> x in names
    requires PassesOrderTest(names, group)
    ensures SliceAt(names, group, Indexes(names, group)[0])
  {
    var s := Indexes(names, group);
    SamePositions(names, group, s, Sorted(s));
    SortedAscends(s);
    AscendingExtremes(s);
    ConsecutiveIsSlice(names, group, s);
  }

  lemma SlicePosition(names: seq<string>, group: seq<string>, lo: nat, i: nat, at: nat)
    requires Distinct(names) && SliceAt(names, group, lo) && i < |group|
    requires at < |names| && names[at] == group[i]
    ensures at == lo + i
  {
    assert group[i] == names[lo..lo + |group|][i] == names[lo + i];
  }

  lemma SlicePasses(names: seq<string>, group: seq<string>, lo: nat)
    requires Distinct(names) && group != []
    requires forall x :: x in group ==> x in names
    requires SliceAt(names, group, lo)
    ensures PassesOrderTest(names, group)
  {
    var s := Indexes(names, group);
    forall i | 0 <= i < |s|
      ensures s[i] == lo + i
    {
      SlicePosition(names, group, lo, i, s[i]);
    }
    SortedIsIdentity(s);
    AscendingExtremes(s);
  }

  /** Sorting the positions and comparing the largest with the smallest is exactly contiguity. */
  lemma OrderTestIsContiguity(names: seq<string>, group: seq<string>)
    requires Distinct(names) && Distinct(group) && group != []
    requires forall x :: x in group ==> x in names
    ensures PassesOrderTest(names, group) <==> IsSlice(names, group)
  {
    if PassesOrderTest(names, group) {
      PassingIsSlice(names, group);
    }
    if IsSlice(names, group) {
      var lo: nat :| SliceAt(names, group, lo);
      SlicePasses(names, group, lo);
    }
  }

  function Referenced(options: Options): set<string> {
    options.resolvers.Keys + options.notBefore.Keys
      + set i, j | 0 <= i < |options.groups| && 0 <= j < |options.groups[i]| :: options.groups[i][j]
  }

  /** The options speak of a step of this name: resolve its request, delay it, or group it. */
  ghost predicate Mentioned(options: Options, name: string) {
    || name in options.resolvers
    || name in options.notBefore
    || exists i :: 0 <= i < |options.groups| && name in options.groups[i]
  }

  lemma ReferencedIsMentioned(options: Options, name: string)
    ensures name in Referenced(options) <==> Mentioned(options, name)
  {
    if i :| 0 <= i < |options.groups| && name in options.groups[i] {
      var j :| 0 <= j < |options.groups[i]| && options.groups[i][j] == name;
      assert options.groups[i][j] in Referenced(options);
    }
  }

  method CheckContiguity(names: seq<string>, groups: seq<seq<string>>) returns (error: Option<WorkflowError>)
    requires Distinct(names) && GoodGroups(groups)
    requires forall i, x :: 0 <= i < |groups| && x in groups[i] ==> x in names
    ensures error.None? <==> forall i :: 0 <= i < |groups| ==> IsSlice(names, groups[i])
    ensures error.Some? ==>
              error.value.NotContiguous? && error.value.group in groups && !IsSlice(names, error.value.group)
  {
    for k := 0 to |groups|
      invariant forall i :: 0 <= i < k ==> IsSlice(names, groups[i])
    {
      assert forall x :: x in groups[k] ==> x in names;
      OrderTestIsContiguity(names, groups[k]);
      if !PassesOrderTest(names, groups[k]) {
        return Some(NotContiguous(groups[k]));
      }
    }
    return None;
  }

  method ValidateOptions(steps: seq<Step>, options: Options) returns (error: Option<WorkflowError>)
    requires Distinct(Names(steps)) && GoodGroups(options.groups)
    ensures error.None? <==>
      && (forall name :: Mentioned(options, name) ==> name in Names(steps))
      && forall i :: 0 <= i < |options.groups| ==> IsSlice(Names(steps), options.groups[i])
    ensures error.Some? ==>
      match error.value
      case UnknownSteps(unknown) =>
        unknown != {} && forall name :: name in unknown <==> Mentioned(options, name) && name !in Names(steps)
      case NotContiguous(group) => group in options.groups && !IsSlice(Names(steps), group)
      case _ => false
  {
    var names := Names(steps);
    var unknown := Referenced(options) - set x | x in names;
    forall name
      ensures name in unknown <==> Mentioned(options, name) && name !in names
    {
      ReferencedIsMentioned(options, name);
    }
    if unknown != {} {
      var x :| x in unknown;
      assert Mentioned(options, x) && x !in names;
      return Some(UnknownSteps(unknown));
    }
    GroupsAreDeclared(names, options, unknown);
    error := CheckContiguity(names, options.groups);
  }

  lemma GroupsAreDeclared(names: seq<string>, options: Options, unknown: set<string>)
    requires unknown == {} && forall name :: name in unknown <==> Mentioned(options, name) && name !in names
    ensures forall name :: Mentioned(options, name) ==> name in names
    ensures forall i, x :: 0 <= i < |options.groups| && x in options.groups[i] ==> x in names
  {
    forall name | Mentioned(options, name)
      ensures name in names
    {
      assert name !in unknown;
    }
    forall i, x | 0 <= i < |options.groups| && x in options.groups[i]
      ensures x in names
    {
      assert Mentioned(options, x);
    }
  }

  /** What a run of the engine may rely on once both checks have passed. */
  ghost predicate Accepted(steps: seq<Step>, options: Options) {
    && Distinct(Names(steps))
    && GoodGroups(options.groups)
    && forall i :: 0 <= i < |options.groups| ==> IsSlice(Names(steps), options.groups[i])
  }

  /** What both validations together accept. */
  ghost predicate Acceptable(steps: seq<Step>, options: Options) {
    && Accepted(steps, options)
    && (forall name :: Mentioned(options, name) ==> name in Names(steps))
    && (forall name :: name in options.resolvers ==> !Blank(name))
    && (forall name :: name in options.notBefore ==> !Blank(name))
  }
}
