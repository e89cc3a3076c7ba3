/** Exactly which groups return results that depend on how workers and the cancel loop interleave. */
module ScheduleDependence {
  import opened Kernel
  import opened ExecutionTypes
  import opened WorkflowSteps
  import opened ParallelGroup
  import opened ParallelResults

  // ----- reaching a state, and going on from it -----

  ghost predicate Reachable(g: Group, s: State)
    requires Runnable(g)
  {
    exists actions :: Replay(g, Init(g), actions) == Some(s)
  }

  lemma {:induction false} ReplaySnoc(g: Group, s: State, actions: seq<Action>, t: State, a: Action)
    requires Inv(g, s) && Replay(g, s, actions) == Some(t) && |t.status| == |g.steps| && Enabled(g, t, a)
    ensures Replay(g, s, actions + [a]) == Some(Apply(g, t, a))
    decreases |actions|
  {
    if actions == [] {
      assert [a][1..] == [];
    } else {
      ApplyKeepsInv(g, s, actions[0]);
      ReplaySnoc(g, Apply(g, s, actions[0]), actions[1..], t, a);
      assert (actions + [a])[0] == actions[0] && (actions + [a])[1..] == actions[1..] + [a];
    }
  }

  lemma ReachableInv(g: Group, s: State)
    requires Runnable(g) && Reachable(g, s)
    ensures Inv(g, s)
  {
    var actions :| Replay(g, Init(g), actions) == Some(s);
    EveryRunIsShort(g, actions);
  }

  lemma ReachableStep(g: Group, s: State, a: Action)
    requires Runnable(g) && Reachable(g, s) && |s.status| == |g.steps| && Enabled(g, s, a)
    ensures Reachable(g, Apply(g, s, a))
  {
    var actions :| Replay(g, Init(g), actions) == Some(s);
    InitInv(g);
    ReplaySnoc(g, Init(g), actions, s, a);
  }

  /** Whether a step runs is decided for good when it starts or is cancelled. */
  lemma ApplyKeepsFate(g: Group, s: State, a: Action, i: nat)
    requires Inv(g, s) && Enabled(g, s, a) && i < |s.status|
    ensures i in s.started ==> i in Apply(g, s, a).started
    ensures Has(s, i, Cancelled) || Has(s, i, Notified) ==>
              Has(Apply(g, s, a), i, Cancelled) || Has(Apply(g, s, a), i, Notified)
  {
  }

  lemma {:induction false} RunKeepsFate(g: Group, s: State, schedule: Schedule, tick: nat, i: nat)
    requires Inv(g, s) && i < |s.status|
    ensures i in s.started ==> i in RunFrom(g, s, schedule, tick).started
    ensures Has(s, i, Cancelled) || Has(s, i, Notified) ==> i !in RunFrom(g, s, schedule, tick).started
    decreases Measure(s)
  {
    if Final(s) {
      assert At(g, s, i);
    } else {
      var a := Choose(g, s, schedule, tick);
      ApplyKeepsInv(g, s, a);
      ApplyDecreases(g, s, a);
      ApplyKeepsFate(g, s, a, i);
      RunKeepsFate(g, Apply(g, s, a), schedule, tick + 1, i);
    }
  }

  lemma ScheduleVia(g: Group, s: State) returns (schedule: Schedule)
    requires Runnable(g) && Reachable(g, s)
    ensures forall i :: i in s.started ==> i in RunGroup(g, schedule).started
    ensures forall i :: Has(s, i, Cancelled) ==> i !in RunGroup(g, schedule).started
  {
    ReachableInv(g, s);
    var actions :| Replay(g, Init(g), actions) == Some(s);
    schedule := ScheduleThrough(g, actions);
    forall i: nat
      ensures i in s.started ==> i in RunGroup(g, schedule).started
      ensures Has(s, i, Cancelled) ==> i !in RunGroup(g, schedule).started
    {
      assert At(g, s, i);
      if i < |s.status| {
        RunKeepsFate(g, s, schedule, |actions|, i);
      }
    }
  }

  // ----- running the steps one after the other -----

  function Submitted(g: Group, k: nat): State {
    State(seq(|g.steps|, i => if i < k then Queued else Unsubmitted), {}, map[], map[], false,
          if k == |g.steps| then Collecting else Submitting(k), [])
  }

  /** Everything is submitted, the first `k` steps have finished, and nothing is collected. */
  function Ran(g: Group, k: nat): State {
    State(seq(|g.steps|, i => if i < k then Finished else Queued), {}, map[], map[], false, Collecting, seq(k, i => i))
  }

  lemma {:induction false} SubmitsInOrder(g: Group, k: nat)
    requires Runnable(g) && k <= |g.steps|
    ensures Reachable(g, Submitted(g, k))
  {
    if k == 0 {
      assert Submitted(g, 0) == Init(g);
      assert Replay(g, Init(g), []) == Some(Init(g));
    } else {
      SubmitsInOrder(g, k - 1);
      ReachableStep(g, Submitted(g, k - 1), Submit);
      assert Apply(g, Submitted(g, k - 1), Submit).status == Submitted(g, k).status;
    }
  }

  lemma {:induction false} RunsInOrder(g: Group, k: nat)
    requires Runnable(g) && k <= |g.steps|
    ensures Reachable(g, Ran(g, k))
  {
    if k == 0 {
      SubmitsInOrder(g, |g.steps|);
      assert Submitted(g, |g.steps|).status == Ran(g, 0).status;
    } else {
      RunsInOrder(g, k - 1);
      NobodyWaits(Ran(g, k - 1).status, k - 1);
      RunStep(g, Ran(g, k - 1), k - 1);
      assert Ran(g, k).status == Ran(g, k - 1).status[k - 1 := Finished];
      assert Ran(g, k).started == Ran(g, k - 1).started + [k - 1];
    }
  }

  lemma {:induction false} RunStep(g: Group, s: State, i: nat)
    requires Runnable(g) && Reachable(g, s) && |s.status| == |g.steps| && Has(s, i, Queued)
    requires forall j :: 0 <= j < |s.status| ==> s.status[j] != Running
    requires Waiting(s.status, i) < g.workers
    ensures Reachable(g, s.(status := s.status[i := Finished], started := s.started + [i]))
  {
    IdlePool(s.status);
    ReachableStep(g, s, Start(i));
    var t := Apply(g, s, Start(i));
    ReachableStep(g, t, Finish(i));
    assert t.status[i := Finished] == s.status[i := Finished];
  }

  lemma EveryoneRuns(g: Group) returns (schedule: Schedule)
    requires Runnable(g)
    ensures forall i :: 0 <= i < |g.steps| ==> i in RunGroup(g, schedule).started
  {
    RunsInOrder(g, |g.steps|);
    schedule := ScheduleVia(g, Ran(g, |g.steps|));
    forall i | 0 <= i < |g.steps|
      ensures i in Ran(g, |g.steps|).started
    {
      assert Ran(g, |g.steps|).started[i] == i;
    }
  }

  // ----- cancelling one step -----

  lemma {:induction false} CancelLoopReaches(g: Group, s: State, i: nat) returns (t: State)
    requires Runnable(g) && Reachable(g, s) && |s.status| == |g.steps|
    requires s.main.Cancelling? && s.main.next <= i && i != s.main.source && Has(s, i, Queued)
    ensures Reachable(g, t) && Has(t, i, Cancelled)
    decreases i - s.main.next
  {
    ReachableStep(g, s, CancelNext);
    t := Apply(g, s, CancelNext);
    if s.main.next < i {
      t := CancelLoopReaches(g, t, i);
    }
  }

  /** Collecting a stopping failure while step `i` still waits cancels that step. */
  lemma CancelledIfCollected(g: Group, s: State, f: nat, i: nat) returns (schedule: Schedule)
    requires Runnable(g) && Reachable(g, s) && |s.status| == |g.steps|
    requires s.main == Collecting && !s.stopped && s.collected == {} && i != f
    requires Failing(g, f) && Has(s, f, Finished) && Has(s, i, Queued)
    ensures i !in RunGroup(g, schedule).started
  {
    ReachableStep(g, s, Collect(f));
    var t := CancelLoopReaches(g, Apply(g, s, Collect(f)), i);
    schedule := ScheduleVia(g, t);
  }

  // ----- which steps can be cancelled -----

  /** Another step may stop the group before this one starts: an earlier one, or, when a second worker
      can hold this one up, a later one. */
  ghost predicate Cancellable(g: Group, i: nat)
    requires Runnable(g)
  {
    i < |g.steps| && exists f: nat :: Failing(g, f) && f != i && (f < i || 1 < g.workers)
  }

  /** Like `Ran`, but the worker that took step `i` has not started it. */
  function RanBut(g: Group, i: nat, k: nat): State
    requires i < k
  {
    State(seq(|g.steps|, j => if j < k && j != i then Finished else Queued), {}, map[], map[], false, Collecting,
          seq(k - 1, j requires 0 <= j < k - 1 => if j < i then j else j + 1))
  }

  lemma {:induction false} OneWaits(status: seq<Status>, i: nat, k: nat)
    requires i < k <= |status| && status[i] == Queued
    requires forall j :: 0 <= j < k && j != i ==> status[j] != Queued && status[j] != Cancelled
    ensures Waiting(status, k) == 1
  {
    if i < k - 1 {
      OneWaits(status, i, k - 1);
    } else {
      NobodyWaits(status, i);
    }
  }

  lemma {:induction false} RunsAllBut(g: Group, i: nat, k: nat)
    requires Runnable(g) && 1 < g.workers && i < k <= |g.steps|
    ensures Reachable(g, RanBut(g, i, k))
  {
    if k == i + 1 {
      RunsInOrder(g, i);
      assert RanBut(g, i, k).status == Ran(g, i).status;
      assert RanBut(g, i, k).started == Ran(g, i).started;
    } else {
      RunsAllBut(g, i, k - 1);
      var s := RanBut(g, i, k - 1);
      OneWaits(s.status, i, k - 1);
      RunStep(g, s, k - 1);
      assert RanBut(g, i, k).status == s.status[k - 1 := Finished];
      assert RanBut(g, i, k).started == s.started + [k - 1];
    }
  }

  lemma CancellableIsCancelled(g: Group, i: nat) returns (schedule: Schedule)
    requires Runnable(g) && Cancellable(g, i)
    ensures i !in RunGroup(g, schedule).started
  {
    var f: nat :| Failing(g, f) && f != i && (f < i || 1 < g.workers);
    if f < i {
      RunsInOrder(g, f + 1);
      schedule := CancelledIfCollected(g, Ran(g, f + 1), f, i);
    } else {
      RunsAllBut(g, i, f + 1);
      schedule := CancelledIfCollected(g, RanBut(g, i, f + 1), f, i);
    }
  }

  lemma {:induction false} WaitingNobody(status: seq<Status>, i: nat, j: nat)
    requires j < i <= |status| && Waiting(status, i) == 0
    ensures status[j] != Queued && status[j] != Cancelled
  {
    if j < i - 1 {
      WaitingNobody(status, i - 1, j);
    }
  }

  lemma {:induction false} IdleMeansNoneRuns(status: seq<Status>, j: nat)
    requires Busy(status) == 0 && j < |status|
    ensures status[j] != Running
  {
    if j > 0 {
      IdleMeansNoneRuns(status[1..], j - 1);
    }
  }

  /** With one worker, a step that no earlier one can stop is over before any later one starts. */
  ghost predicate Safe(s: State, i: nat) {
    && i < |s.status| && s.status[i] != Cancelled && s.status[i] != Notified
    && forall j :: i < j < |s.status| && (s.status[j] == Running || s.status[j] == Finished) ==> s.status[i] == Finished
  }

  lemma StartKeepsSafe(g: Group, s: State, k: nat, i: nat)
    requires Inv(g, s) && g.workers == 1 && Safe(s, i) && Enabled(g, s, Start(k))
    ensures Safe(Apply(g, s, Start(k)), i)
  {
    if i < k {
      assert At(g, s, i) && At(g, s, k);
      WaitingNobody(s.status, k, i);
      IdleMeansNoneRuns(s.status, i);
    }
  }

  lemma CancelKeepsSafe(g: Group, s: State, i: nat)
    requires Inv(g, s) && Safe(s, i) && Enabled(g, s, CancelNext)
    requires forall f: nat :: Failing(g, f) ==> i <= f
    ensures Safe(Apply(g, s, CancelNext), i)
  {
    var f :| f in s.completed && Failing(g, f);
    assert At(g, s, f);
  }

  lemma ApplyKeepsSafe(g: Group, s: State, a: Action, i: nat)
    requires Inv(g, s) && g.workers == 1 && Safe(s, i) && Enabled(g, s, a)
    requires forall f: nat :: Failing(g, f) ==> i <= f
    ensures Safe(Apply(g, s, a), i)
  {
    match a
    case Submit =>
      assert At(g, s, s.main.next);
    case Start(k) => StartKeepsSafe(g, s, k, i);
    case Finish(_) =>
    case Notify(_) =>
    case Collect(_) =>
    case CancelNext => CancelKeepsSafe(g, s, i);
  }

  lemma {:induction false} RunKeepsSafe(g: Group, s: State, schedule: Schedule, tick: nat, i: nat)
    requires Inv(g, s) && g.workers == 1 && Safe(s, i)
    requires forall f: nat :: Failing(g, f) ==> i <= f
    ensures Safe(RunFrom(g, s, schedule, tick), i)
    decreases Measure(s)
  {
    if !Final(s) {
      var a := Choose(g, s, schedule, tick);
      ApplyKeepsSafe(g, s, a, i);
      ApplyKeepsInv(g, s, a);
      ApplyDecreases(g, s, a);
      RunKeepsSafe(g, Apply(g, s, a), schedule, tick + 1, i);
    }
  }

  lemma OthersAlwaysRun(g: Group, schedule: Schedule, i: nat)
    requires Runnable(g) && i < |g.steps| && !Cancellable(g, i)
    ensures i in RunGroup(g, schedule).started
  {
    var s := RunGroup(g, schedule);
    FinalPartition(g, s, i);
    assert At(g, s, i);
    if WasCancelled(s, i) {
      InitInv(g);
      RunKeepsSafe(g, Init(g), schedule, 0, i);
    }
  }

  /** A step is left out by some interleaving exactly when another may stop the group before it starts. */
  lemma LeftOutExactlyWhen(g: Group, i: nat)
    requires Runnable(g) && i < |g.steps|
    ensures (exists schedule: Schedule :: i !in RunGroup(g, schedule).started) <==> Cancellable(g, i)
  {
    if Cancellable(g, i) {
      var schedule := CancellableIsCancelled(g, i);
    }
    if schedule: Schedule :| i !in RunGroup(g, schedule).started {
      if !Cancellable(g, i) {
        OthersAlwaysRun(g, schedule, i);
      }
    }
  }

  // ----- when the conclusion depends on the interleaving -----

  ghost predicate Raises(g: Group, i: nat)
    requires Runnable(g)
  {
    i < |g.steps| && g.outcomes[i].Raised?
  }

  /** Every step always runs, or some step raises and every step that does always runs. */
  ghost predicate Independent(g: Group)
    requires Runnable(g)
  {
    || (forall i: nat :: !Cancellable(g, i))
    || ((exists i: nat :: Raises(g, i)) && forall i: nat :: Raises(g, i) ==> !Cancellable(g, i))
  }

  lemma RaisedAreAll(g: Group, s: State)
    requires Inv(g, s) && Final(s) && forall i: nat :: Raises(g, i) ==> i in s.started
    ensures s.raised == AllRaised(g)
  {
    forall i: nat
      ensures i in s.raised <==> Raises(g, i)
      ensures i in s.raised ==> g.outcomes[i] == Raised(s.raised[i])
    {
      RaisedAt(g, s, i);
    }
    assert s.raised.Keys == AllRaised(g).Keys;
  }

  lemma CompletedAreAll(g: Group, s: State)
    requires Inv(g, s) && Final(s) && forall i :: 0 <= i < |g.steps| ==> i in s.started
    ensures s.completed == AllReturned(g)
  {
    forall i: nat
      ensures i in s.completed <==> i < |g.steps| && g.outcomes[i].Returned?
      ensures i in s.completed ==> g.outcomes[i] == Returned(s.completed[i])
    {
      assert At(g, s, i);
      if i < |g.steps| {
        FinalPartition(g, s, i);
      }
    }
    assert s.completed.Keys == AllReturned(g).Keys;
  }

  lemma IndependentConclusion(g: Group, a: Schedule, b: Schedule)
    requires Runnable(g) && Independent(g)
    ensures Conclude(g.steps, RunGroup(g, a)) == Conclude(g.steps, RunGroup(g, b))
  {
    var s, t := RunGroup(g, a), RunGroup(g, b);
    forall i: nat | i < |g.steps| && !Cancellable(g, i)
      ensures i in s.started && i in t.started
    {
      OthersAlwaysRun(g, a, i);
      OthersAlwaysRun(g, b, i);
    }
    RaisedAreAll(g, s);
    RaisedAreAll(g, t);
    if forall i: nat :: !Cancellable(g, i) {
      CompletedAreAll(g, s);
      CompletedAreAll(g, t);
    } else {
      var i: nat :| Raises(g, i);
      assert i in AllRaised(g);
    }
  }

  lemma NoRaiseMeansResults(g: Group, s: State)
    requires Inv(g, s) && Final(s) && forall i: nat :: !Raises(g, i)
    ensures Conclude(g.steps, s).Results?
  {
    forall i: nat
      ensures i !in s.raised
    {
      RaisedAt(g, s, i);
      assert !Raises(g, i);
    }
  }

  lemma MissingResultShows(g: Group, s: State, t: State, i: nat)
    requires Inv(g, s) && Final(s) && Inv(g, t) && Final(t) && Distinct(Names(g.steps))
    requires i < |g.steps| && i in s.started && i !in t.started && forall j: nat :: !Raises(g, j)
    ensures Conclude(g.steps, s) != Conclude(g.steps, t)
  {
    NoRaiseMeansResults(g, s);
    NoRaiseMeansResults(g, t);
    ConcludeGets(g, s, i);
    ConcludeGets(g, t, i);
  }

  /** How many exceptions a conclusion carries. */
  function Exceptions(c: Conclusion): nat {
    match c
    case Results(_) => 0
    case Propagates(_) => 1
    case PropagatesGroup(exns) => |exns|
  }

  lemma AscendingIsDistinct(order: seq<nat>)
    requires forall a, b :: 0 <= a < b < |order| ==> order[a] < order[b]
    ensures Distinct(order)
  {
  }

  lemma FewerRaisers(g: Group, s: State, t: State, p: seq<nat>, q: seq<nat>, i: nat)
    requires Runnable(g) && Raisers(g, s, p) && Raisers(g, t, q) && Raises(g, i)
    requires i in s.started && i !in t.started
    requires forall j: nat :: j in t.started ==> j < |g.steps| && j in s.started
    ensures |q| < |p|
  {
    AscendingIsDistinct(p);
    AscendingIsDistinct(q);
    DistinctSize(p);
    DistinctSize(q);
    forall j | j in q
      ensures j in p
    {
      var a :| 0 <= a < |q| && q[a] == j;
      assert j in t.started && Raises(g, j);
    }
    assert Elements(q) <= Elements(p) - {i};
    SubsetSize(Elements(q), Elements(p) - {i});
  }

  lemma SubsetSize(a: set<nat>, b: set<nat>)
    requires a <= b
    ensures |a| <= |b|
  {
    assert b == a + (b - a);
  }

  lemma MissingExceptionShows(g: Group, s: State, t: State, i: nat)
    requires Inv(g, s) && Final(s) && Inv(g, t) && Final(t)
    requires (forall j :: 0 <= j < |g.steps| ==> j in s.started) && i !in t.started && Raises(g, i)
    ensures Conclude(g.steps, s) != Conclude(g.steps, t)
  {
    var p := ExceptionsTakePrecedence(g, s);
    var q := ExceptionsTakePrecedence(g, t);
    forall j: nat | j in t.started
      ensures j < |g.steps| && j in s.started
    {
      assert At(g, t, j);
    }
    FewerRaisers(g, s, t, p, q, i);
    assert Exceptions(Conclude(g.steps, s)) == |p| && Exceptions(Conclude(g.steps, t)) == |q|;
  }

  /** Where the condition fails, one interleaving runs every step and another concludes differently. */
  lemma DependentConclusions(g: Group) returns (a: Schedule, b: Schedule)
    requires Runnable(g) && Distinct(Names(g.steps)) && !Independent(g)
    ensures Conclude(g.steps, RunGroup(g, a)) != Conclude(g.steps, RunGroup(g, b))
  {
    a := EveryoneRuns(g);
    if i: nat :| Raises(g, i) {
      var r: nat :| Raises(g, r) && Cancellable(g, r);
      b := CancellableIsCancelled(g, r);
      MissingExceptionShows(g, RunGroup(g, a), RunGroup(g, b), r);
    } else {
      var i: nat :| Cancellable(g, i);
      b := CancellableIsCancelled(g, i);
      MissingResultShows(g, RunGroup(g, a), RunGroup(g, b), i);
    }
  }

  /** A group concludes alike under all interleavings exactly when no step of it can be cancelled, or
      some step raises and none that raises can be cancelled. */
  lemma DependsExactlyWhen(g: Group)
    requires Runnable(g) && Distinct(Names(g.steps))
    ensures (forall a: Schedule, b: Schedule :: Conclude(g.steps, RunGroup(g, a)) == Conclude(g.steps, RunGroup(g, b)))
       <==> Independent(g)
  {
    if Independent(g) {
      forall a: Schedule, b: Schedule
        ensures Conclude(g.steps, RunGroup(g, a)) == Conclude(g.steps, RunGroup(g, b))
      {
        IndependentConclusion(g, a, b);
      }
    } else {
      var a, b := DependentConclusions(g);
    }
  }
}
