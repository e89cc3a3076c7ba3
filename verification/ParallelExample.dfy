/** A concrete group whose results depend on how a worker and the cancel loop interleave. */
module ParallelExample {
  import opened Kernel
  import opened ExecutionTypes
  import opened OrderedDict
  import opened WorkflowSteps
  import opened ParallelGroup
  import opened ParallelResults

  function NamedStep(name: string): Step {
    Step(name, Request(Tool, "echo", map[], "r"), {}, false)
  }

  const OK := Returned(Result(true, None, None, None))
  const FAILED := Returned(Result(false, None, Some("down"), None))

  /** One worker, three steps, and the first one fails. */
  const GROUP := Group([NamedStep("a"), NamedStep("b"), NamedStep("c")], [FAILED, OK, OK], 1)

  lemma {:induction false} Then(s: State, a: Action, rest: seq<Action>)
    requires |s.status| == 3 && Enabled(GROUP, s, a)
    ensures Replay(GROUP, s, [a] + rest) == Replay(GROUP, Apply(GROUP, s, a), rest)
  {
    assert ([a] + rest)[1..] == rest;
  }

  /** The first step has been collected and the cancel loop is about to look at step `k`. */
  function Stopped(status: seq<Status>, main: MainThread, started: seq<nat>, collected: set<nat>): State {
    State(status, collected, map[0 := FAILED.result], map[], true, main, started)
  }

  function Opening(rest: seq<Action>): seq<Action> {
    [Submit] + ([Submit] + ([Submit] + ([Start(0)] + ([Finish(0)] + ([Collect(0)] + ([CancelNext] + ([CancelNext] + rest)))))))
  }

  const SUBMITTED := State([Queued, Queued, Queued], {}, map[], map[], false, Collecting, [])

  lemma {:induction false} AllSubmitted(rest: seq<Action>)
    ensures Replay(GROUP, Init(GROUP), [Submit] + ([Submit] + ([Submit] + rest))) == Replay(GROUP, SUBMITTED, rest)
  {
    var s0 := Init(GROUP);
    Then(s0, Submit, [Submit] + ([Submit] + rest));
    var s1 := Apply(GROUP, s0, Submit);
    assert s1.status == [Queued, Unsubmitted, Unsubmitted];
    Then(s1, Submit, [Submit] + rest);
    var s2 := Apply(GROUP, s1, Submit);
    assert s2.status == [Queued, Queued, Unsubmitted];
    Then(s2, Submit, rest);
    assert Apply(GROUP, s2, Submit) == SUBMITTED;
  }

  lemma {:induction false} FirstFails(rest: seq<Action>)
    ensures Replay(GROUP, SUBMITTED, [Start(0)] + ([Finish(0)] + ([Collect(0)] + rest)))
         == Replay(GROUP, Stopped([Finished, Queued, Queued], Cancelling(0, 0), [0], {0}), rest)
  {
    var r5 := [Collect(0)] + rest;
    var r4 := [Finish(0)] + r5;
    IdlePool(SUBMITTED.status);
    Then(SUBMITTED, Start(0), r4);
    var s4 := Apply(GROUP, SUBMITTED, Start(0));
    assert s4.status == [Running, Queued, Queued];
    Then(s4, Finish(0), r5);
    var s5 := Apply(GROUP, s4, Finish(0));
    assert s5.status == [Finished, Queued, Queued];
    Then(s5, Collect(0), rest);
    assert Apply(GROUP, s5, Collect(0)) == Stopped([Finished, Queued, Queued], Cancelling(0, 0), [0], {0});
  }

  lemma {:induction false} OpeningLeads(rest: seq<Action>)
    ensures Replay(GROUP, Init(GROUP), Opening(rest))
      == Replay(GROUP, Stopped([Finished, Cancelled, Queued], Cancelling(0, 2), [0], {0}), rest)
  {
    var r7 := [CancelNext] + rest;
    var r6 := [CancelNext] + r7;
    AllSubmitted([Start(0)] + ([Finish(0)] + ([Collect(0)] + r6)));
    FirstFails(r6);
    var s6 := Stopped([Finished, Queued, Queued], Cancelling(0, 0), [0], {0});
    Then(s6, CancelNext, r7);
    var s7 := Apply(GROUP, s6, CancelNext);
    Then(s7, CancelNext, rest);
    assert Apply(GROUP, s7, CancelNext).status == [Finished, Cancelled, Queued];
  }

  /** The worker meets the cancelled second step and takes the third before the loop reaches it. */
  lemma {:induction false} WorkerWins(rest: seq<Action>)
    ensures Replay(GROUP, Stopped([Finished, Cancelled, Queued], Cancelling(0, 2), [0], {0}),
                   [Notify(1)] + ([Start(2)] + ([CancelNext] + rest)))
         == Replay(GROUP, Stopped([Finished, Notified, Running], Collecting, [0, 2], {0}), rest)
  {
    var r2 := [CancelNext] + rest;
    var r1 := [Start(2)] + r2;
    var s0 := Stopped([Finished, Cancelled, Queued], Cancelling(0, 2), [0], {0});
    IdlePool(s0.status);
    Then(s0, Notify(1), r1);
    var s1 := Apply(GROUP, s0, Notify(1));
    assert s1.status == [Finished, Notified, Queued];
    IdlePool(s1.status);
    NobodyWaits(s1.status, 2);
    Then(s1, Start(2), r2);
    var s2 := Apply(GROUP, s1, Start(2));
    assert s2.status == [Finished, Notified, Running];
    Then(s2, CancelNext, rest);
    assert Apply(GROUP, s2, CancelNext) == Stopped([Finished, Notified, Running], Collecting, [0, 2], {0});
  }

  lemma ThirdStepRuns() returns (actions: seq<Action>, s: State)
    ensures Replay(GROUP, Init(GROUP), actions) == Some(s) && Final(s)
    ensures s.started == [0, 2]
    ensures s.completed == map[0 := FAILED.result, 2 := OK.result] && s.raised == map[]
  {
    var r5 := [Collect(2)] + [];
    var r4 := [Collect(1)] + r5;
    var r3 := [Finish(2)] + r4;
    var race := [Notify(1)] + ([Start(2)] + ([CancelNext] + r3));
    actions := Opening(race);
    OpeningLeads(race);
    WorkerWins(r3);
    var s3 := Stopped([Finished, Notified, Running], Collecting, [0, 2], {0});
    Then(s3, Finish(2), r4);
    var s4 := Apply(GROUP, s3, Finish(2));
    assert s4.status == [Finished, Notified, Finished];
    Then(s4, Collect(1), r5);
    var s5 := Apply(GROUP, s4, Collect(1));
    Then(s5, Collect(2), []);
    s := Apply(GROUP, s5, Collect(2));
    assert s.completed == map[0 := FAILED.result, 2 := OK.result];
  }

  /** The cancel loop reaches the third step first. */
  lemma {:induction false} LoopWins(rest: seq<Action>)
    ensures Replay(GROUP, Stopped([Finished, Cancelled, Queued], Cancelling(0, 2), [0], {0}),
                   [CancelNext] + ([Notify(1)] + ([Notify(2)] + rest)))
         == Replay(GROUP, Stopped([Finished, Notified, Notified], Collecting, [0], {0}), rest)
  {
    var r2 := [Notify(2)] + rest;
    var r1 := [Notify(1)] + r2;
    var s0 := Stopped([Finished, Cancelled, Queued], Cancelling(0, 2), [0], {0});
    Then(s0, CancelNext, r1);
    var s1 := Apply(GROUP, s0, CancelNext);
    assert s1.status == [Finished, Cancelled, Cancelled];
    IdlePool(s1.status);
    Then(s1, Notify(1), r2);
    var s2 := Apply(GROUP, s1, Notify(1));
    assert s2.status == [Finished, Notified, Cancelled];
    IdlePool(s2.status);
    NobodyWaits(s2.status, 2);
    Then(s2, Notify(2), rest);
    assert Apply(GROUP, s2, Notify(2)) == Stopped([Finished, Notified, Notified], Collecting, [0], {0});
  }

  lemma ThirdStepCancelled() returns (actions: seq<Action>, s: State)
    ensures Replay(GROUP, Init(GROUP), actions) == Some(s) && Final(s)
    ensures s.started == [0]
    ensures s.completed == map[0 := FAILED.result] && s.raised == map[]
  {
    var r4 := [Collect(2)] + [];
    var r3 := [Collect(1)] + r4;
    var race := [CancelNext] + ([Notify(1)] + ([Notify(2)] + r3));
    actions := Opening(race);
    OpeningLeads(race);
    LoopWins(r3);
    var s3 := Stopped([Finished, Notified, Notified], Collecting, [0], {0});
    Then(s3, Collect(1), r4);
    var s4 := Apply(GROUP, s3, Collect(1));
    Then(s4, Collect(2), []);
    s := Apply(GROUP, s4, Collect(2));
  }

  /** After a failure the returned results are not a function of the steps' outcomes, and the steps
      that ran need not be a prefix of the group, although ADR-0024 promises that no public result
      depends on completion order. ScheduleDependence.DependsExactlyWhen says which groups do. */
  lemma ResultsDependOnTheInterleaving()
    returns (one: seq<Action>, s: State, other: seq<Action>, t: State)
    ensures Replay(GROUP, Init(GROUP), one) == Some(s) && Final(s)
    ensures Replay(GROUP, Init(GROUP), other) == Some(t) && Final(t)
    ensures WasCancelled(s, 1) && 2 in s.started
    ensures Conclude(GROUP.steps, s) != Conclude(GROUP.steps, t)
  {
    one, s := ThirdStepRuns();
    other, t := ThirdStepCancelled();
    EveryStepAccountedFor(GROUP, one, s, 1);
    EveryRunIsShort(GROUP, one);
    FinalPartition(GROUP, s, 2);
    assert Get(Gather(GROUP.steps, s.completed, 0), "c") != Get(Gather(GROUP.steps, t.completed, 0), "c") by {
      assert Names(GROUP.steps) == ["a", "b", "c"];
      assert "a"[0] != "b"[0] && "a"[0] != "c"[0] && "b"[0] != "c"[0];
      GatherGets(GROUP.steps, s.completed, 0, 2);
      GatherGets(GROUP.steps, t.completed, 0, 2);
    }
  }
}
