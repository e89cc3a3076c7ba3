/** The parallel group as the engine drives it: futures, dictionaries and flags updated in place. */
module ThreadPoolRun {
  import opened ExecutionTypes
  import opened ParallelGroup
  import opened ParallelResults

  class GroupRun {
    const group: Group
    var status: seq<Status>
    var collected: set<nat>
    var completed: map<nat, Result>
    var raised: map<nat, Exn>
    var stopped: bool
    var main: MainThread
    var started: seq<nat>

    ghost function View(): State
      reads this
    {
      State(status, collected, completed, raised, stopped, main, started)
    }

    ghost predicate Valid()
      reads this
    {
      Inv(group, View())
    }

    predicate Sized()
      reads this
    {
      Runnable(group) && |status| == |group.steps|
    }

    constructor (group: Group)
      requires Runnable(group)
      ensures this.group == group && View() == Init(group) && Valid()
    {
      this.group := group;
      status := seq(|group.steps|, _ => Unsubmitted);
      collected, completed, raised, stopped := {}, map[], map[], false;
      main := if group.steps == [] then Collecting else Submitting(0);
      started := [];
      InitInv(group);
    }

    /** `executor.submit` of the next step. */
    method SubmitNext()
      requires Sized() && Enabled(group, View(), Submit)
      modifies this
      ensures View() == Apply(group, old(View()), Submit)
    {
      var k := main.next;
      status := status[k := Queued];
      main := if k + 1 == |status| then Collecting else Submitting(k + 1);
    }

    /** A worker takes a queued future, finishes the one it runs, or meets a cancelled one. */
    method Work(a: Action)
      requires Sized() && Enabled(group, View(), a) && (a.Start? || a.Finish? || a.Notify?)
      modifies this
      ensures View() == Apply(group, old(View()), a)
    {
      match a {
        case Start(i) =>
          status := status[i := Running];
          started := started + [i];
        case Finish(i) => status := status[i := Finished];
        case Notify(i) => status := status[i := Notified];
      }
    }

    /** One turn of the `as_completed` loop. */
    method CollectOne(i: nat)
      requires Sized() && Enabled(group, View(), Collect(i))
      modifies this
      ensures View() == Apply(group, old(View()), Collect(i))
      ensures stopped
         <==> (old(stopped)
               || (status[i] == Finished && group.outcomes[i].Returned?
                   && !group.outcomes[i].result.success && !group.steps[i].continueOnFailure))
      ensures main == if stopped && !old(stopped) then Cancelling(i, 0) else old(main)
    {
      collected := collected + {i};
      if status[i] == Notified {
        return;
      }
      match group.outcomes[i] {
        case Raised(exn) => raised := raised[i := exn];
        case Returned(result) =>
          completed := completed[i := result];
          if !stopped && !result.success && !group.steps[i].continueOnFailure {
            stopped := true;
            main := Cancelling(i, 0);
          }
      }
    }

    /** One turn of the cancel loop. */
    method CancelOne()
      requires Sized() && Enabled(group, View(), CancelNext)
      modifies this
      ensures View() == Apply(group, old(View()), CancelNext)
    {
      var k := main.next;
      if k != main.source && status[k] == Queued {
        status := status[k := Cancelled];
      }
      main := if k + 1 == |status| then Collecting else Cancelling(main.source, k + 1);
    }

    method Act(a: Action)
      requires Valid() && Enabled(group, View(), a)
      modifies this
      ensures Valid() && View() == Apply(group, old(View()), a)
    {
      ApplyKeepsInv(group, View(), a);
      match a {
        case Submit => SubmitNext();
        case Collect(i) => CollectOne(i);
        case CancelNext => CancelOne();
        case _ => Work(a);
      }
    }

    /** Runs the group to its end under a schedule. */
    method RunSchedule(schedule: Schedule) returns (conclusion: Conclusion)
      requires View() == Init(group) && Valid()
      modifies this
      ensures View() == RunGroup(group, schedule) && Valid()
      ensures conclusion == Conclude(group.steps, View())
    {
      var tick: nat := 0;
      while !Over()
        invariant Valid() && RunFrom(group, View(), schedule, tick) == RunGroup(group, schedule)
        decreases Measure(View())
      {
        var now := State(status, collected, completed, raised, stopped, main, started);
        var a := Choose(group, now, schedule, tick);
        ApplyDecreases(group, now, a);
        Act(a);
        tick := tick + 1;
      }
      conclusion := Conclude(group.steps, State(status, collected, completed, raised, stopped, main, started));
    }

    /** `as_completed` has yielded every future. */
    predicate Over()
      reads this
    {
      main.Collecting? && forall i :: 0 <= i < |status| ==> i in collected
    }

    /** Replays one whole interleaving; what it returns is what the engine returns for the unit. */
    method RunAll(actions: seq<Action>) returns (conclusion: Conclusion)
      requires View() == Init(group) && Valid()
      requires Replay(group, Init(group), actions).Some? && Final(Replay(group, Init(group), actions).value)
      modifies this
      ensures View() == Replay(group, Init(group), actions).value && Valid() && Final(View())
      ensures conclusion == Conclude(group.steps, View())
    {
      ghost var goal := Replay(group, Init(group), actions);
      assert actions[0..] == actions;
      for k := 0 to |actions|
        invariant Valid() && Replay(group, View(), actions[k..]) == goal
      {
        assert actions[k..][0] == actions[k] && actions[k..][1..] == actions[k + 1..];
        Act(actions[k]);
      }
      conclusion := Conclude(group.steps, State(status, collected, completed, raised, stopped, main, started));
    }
  }
}
