/** The steps of a workflow and what running one of them means. */
module WorkflowSteps {
  import opened Kernel
  import opened ExecutionTypes
  import opened OrderedDict

  datatype Step = Step(
    name: string,
    request: Request,
    grantedPermissions: set<string>,
    continueOnFailure: bool)

  type StepResults = Dict<string, Result>

  datatype ResolverAnswer =
    | Candidate(request: Request)
    | OtherValue(typeName: string)
    | ResolverRaised(text: string)

  type Resolver = (StepResults, Request) -> ResolverAnswer

  datatype Options = Options(
    resolvers: map<string, Resolver>,
    groups: seq<seq<string>>,
    notBefore: map<string, int>)

  /** Everything a run cannot see into. A step runs at most once in a run, so indexing the
      clock reading and the engine's answer by step name loses no behaviour. */
  datatype World = World(
    clock: string -> int,
    engine: (string, Request, set<string>) -> Outcome)

  function Names(steps: seq<Step>): (names: seq<string>)
    ensures |names| == |steps|
    ensures forall i :: 0 <= i < |steps| ==> names[i] == steps[i].name
  {
    seq(|steps|, i requires 0 <= i < |steps| => steps[i].name)
  }

  function Failure(error: string, stage: string): Outcome {
    Returned(Result(false, None, Some(error), Some(stage)))
  }

  /** The request a step hands to the engine, or the failure that replaces the call. */
  datatype Resolved = Send(request: Request) | Skip(outcome: Outcome)

  function Resolve(step: Step, results: StepResults, options: Options, world: World): Resolved {
    if step.name in options.notBefore && world.clock(step.name) < options.notBefore[step.name] then
      Skip(Failure("Step is not yet due to run: " + step.name, "scheduling"))
    else if step.name in options.resolvers then
      match options.resolvers[step.name](results, step.request)
      case ResolverRaised(text) =>
        Skip(Failure("Dynamic request resolution failed for " + step.name + ": " + text, "dynamic_request"))
      case OtherValue(typeName) =>
        Skip(Failure("Step " + step.name + "'s request resolver returned " + typeName, "dynamic_request"))
      case Candidate(request) => Send(request)
    else
      Send(step.request)
  }

  function Execute(step: Step, results: StepResults, options: Options, world: World): Outcome {
    match Resolve(step, results, options, world)
    case Skip(outcome) => outcome
    case Send(request) => world.engine(step.name, request, step.grantedPermissions)
  }

  ghost predicate Due(step: Step, options: Options, world: World) {
    step.name in options.notBefore ==> options.notBefore[step.name] <= world.clock(step.name)
  }

  /** A step reaches the engine exactly when it is due and its resolver, if it has one, names a
      request; the engine then gets that request, or the declared one, with the step's permissions.
      Otherwise the step fails in an orderly way, at the stage that held it back. */
  lemma ReachesEngine(step: Step, results: StepResults, options: Options, world: World)
    ensures Resolve(step, results, options, world).Send?
       <==> && Due(step, options, world)
            && (step.name in options.resolvers ==> options.resolvers[step.name](results, step.request).Candidate?)
    ensures Resolve(step, results, options, world).Send? ==>
              var request := if step.name in options.resolvers
                             then options.resolvers[step.name](results, step.request).request else step.request;
              Execute(step, results, options, world) == world.engine(step.name, request, step.grantedPermissions)
    ensures Resolve(step, results, options, world).Skip? ==>
              var outcome := Execute(step, results, options, world);
              && outcome.Returned? && !outcome.result.success && WellFormed(outcome.result)
              && outcome.result.stage == Some(if Due(step, options, world) then "dynamic_request" else "scheduling")
              && outcome.result.payload.None?
              && outcome.result.error
                 == Some(if !Due(step, options, world) then "Step is not yet due to run: " + step.name
                         else match options.resolvers[step.name](results, step.request)
                              case ResolverRaised(text) =>
                                "Dynamic request resolution failed for " + step.name + ": " + text
                              case OtherValue(typeName) =>
                                "Step " + step.name + "'s request resolver returned " + typeName
                              case Candidate(_) => "")
  {
    var outcome := Execute(step, results, options, world);
    if Resolve(step, results, options, world).Skip? {
      assert outcome.result.error.value[0] in ['S', 'D'];
    }
  }

  predicate Stops(step: Step, result: Result) {
    !result.success && !step.continueOnFailure
  }
}

/** One parallel unit: a thread pool, its futures, and the thread that collects them.
    Every action is one atomic move of a worker or of the collecting thread, so a sequence of
    actions is one interleaving. The pool's queue is first in, first out: a worker that starts a
    step, or meets a cancelled one, has taken it after every earlier step was taken by some worker. */
module ParallelGroup {
  import opened Kernel
  import opened ExecutionTypes
  import opened WorkflowSteps

  datatype Status =
    | Unsubmitted
    | Queued
    | Running
    | Finished
    | Cancelled  // cancel() returned true; no worker has met the future yet
    | Notified   // a worker has met the cancelled future and told the waiter

  datatype MainThread =
    | Submitting(next: nat)
    | Collecting
    | Cancelling(source: nat, next: nat)

  datatype Group = Group(steps: seq<Step>, outcomes: seq<Outcome>, workers: nat)

  datatype State = State(
    status: seq<Status>,
    collected: set<nat>,
    completed: map<nat, Result>,
    raised: map<nat, Exn>,
    stopped: bool,
    main: MainThread,
    started: seq<nat>)

  datatype Action =
    | Submit
    | Start(step: nat)
    | Finish(step: nat)
    | Notify(step: nat)
    | Collect(step: nat)
    | CancelNext

  predicate Runnable(g: Group) {
    |g.steps| == |g.outcomes| && 0 < g.workers
  }

  function Init(g: Group): State {
    State(seq(|g.steps|, _ => Unsubmitted), {}, map[], map[], false,
          if g.steps == [] then Collecting else Submitting(0), [])
  }

  function Busy(status: seq<Status>): nat {
    if status == [] then 0 else (if status[0] == Running then 1 else 0) + Busy(status[1..])
  }

  /** How many of the first `i` futures no worker has come to: each is in some worker's hands, between
      the queue and its start, once a worker has taken future `i`. */
  function Waiting(status: seq<Status>, i: nat): nat
    requires i <= |status|
  {
    if i == 0 then 0
    else Waiting(status, i - 1) + if status[i - 1] == Queued || status[i - 1] == Cancelled then 1 else 0
  }

  /** Enough workers for the running steps, the earlier futures still in hand, and one more. */
  predicate WorkerFor(g: Group, status: seq<Status>, i: nat)
    requires i <= |status|
  {
    Busy(status) + Waiting(status, i) < g.workers
  }

  predicate Has(s: State, i: nat, wanted: Status) {
    i < |s.status| && s.status[i] == wanted
  }

  predicate Enabled(g: Group, s: State, a: Action) {
    match a
    case Submit => s.main.Submitting? && s.main.next < |s.status|
    case Start(i) => Has(s, i, Queued) && WorkerFor(g, s.status, i)
    case Finish(i) => Has(s, i, Running)
    case Notify(i) => Has(s, i, Cancelled) && WorkerFor(g, s.status, i)
    case Collect(i) => s.main.Collecting? && i !in s.collected && (Has(s, i, Finished) || Has(s, i, Notified))
    case CancelNext => s.main.Cancelling? && s.main.next < |s.status|
  }

  function AfterCollect(g: Group, s: State, i: nat): State
    requires Runnable(g) && i < |g.steps|
  {
    var s' := s.(collected := s.collected + {i});
    if !Has(s, i, Finished) then s'
    else
      match g.outcomes[i]
      case Raised(exn) => s'.(raised := s.raised[i := exn])
      case Returned(result) =>
        var s'' := s'.(completed := s.completed[i := result]);
        if !s.stopped && Stops(g.steps[i], result) then
          s''.(stopped := true, main := Cancelling(i, 0))
        else s''
  }

  function Apply(g: Group, s: State, a: Action): State
    requires Runnable(g) && |s.status| == |g.steps| && Enabled(g, s, a)
  {
    match a
    case Submit =>
      var k := s.main.next;
      s.(status := s.status[k := Queued],
         main := if k + 1 == |s.status| then Collecting else Submitting(k + 1))
    case Start(i) => s.(status := s.status[i := Running], started := s.started + [i])
    case Finish(i) => s.(status := s.status[i := Finished])
    case Notify(i) => s.(status := s.status[i := Notified])
    case Collect(i) => AfterCollect(g, s, i)
    case CancelNext =>
      var k := s.main.next;
      s.(status := if k != s.main.source && s.status[k] == Queued then s.status[k := Cancelled] else s.status,
         main := if k + 1 == |s.status| then Collecting else Cancelling(s.main.source, k + 1))
  }

  /** `as_completed` has yielded every future. */
  predicate Final(s: State) {
    s.main.Collecting? && forall i :: 0 <= i < |s.status| ==> i in s.collected
  }

  // ----- what every action keeps -----

  ghost predicate Failing(g: Group, i: nat)
    requires Runnable(g)
  {
    i < |g.steps| && g.outcomes[i].Returned? && !g.outcomes[i].result.success && !g.steps[i].continueOnFailure
  }

  /** What holds of one future, whichever it is. */
  ghost predicate At(g: Group, s: State, i: nat)
    requires Runnable(g)
  {
    if i < |g.steps| then
      && |s.status| == |g.steps|
      && (i in s.collected ==> s.status[i] == Finished || s.status[i] == Notified)
      && (i in s.completed <==> i in s.collected && s.status[i] == Finished && g.outcomes[i].Returned?)
      && (i in s.completed ==> s.completed[i] == g.outcomes[i].result)
      && (i in s.raised <==> i in s.collected && s.status[i] == Finished && g.outcomes[i].Raised?)
      && (i in s.raised ==> s.raised[i] == g.outcomes[i].exn)
      && (s.status[i] == Unsubmitted <==> s.main.Submitting? && s.main.next <= i)
      && (s.status[i] == Cancelled || s.status[i] == Notified ==> s.stopped)
      && (i in s.completed && Failing(g, i) ==> s.stopped)
      && (i in s.started <==> s.status[i] == Running || s.status[i] == Finished)
    else
      i !in s.collected && i !in s.completed && i !in s.raised && i !in s.started
  }

  ghost predicate AllAt(g: Group, s: State)
    requires Runnable(g)
  {
    forall i: nat {:trigger At(g, s, i)} {:trigger i in s.collected} {:trigger i in s.completed}
      {:trigger i in s.raised} {:trigger i in s.started} :: At(g, s, i)
  }

  ghost predicate Inv(g: Group, s: State) {
    && Runnable(g)
    && |s.status| == |g.steps|
    && AllAt(g, s)
    && (s.main.Submitting? ==> s.main.next < |s.status| && s.collected == {})
    && (s.main.Cancelling? ==> s.main.next < |s.status| && s.stopped && s.main.source in s.completed)
    && (s.stopped ==> exists i :: i in s.completed && Failing(g, i))
    && Distinct(s.started)
    && Busy(s.status) <= g.workers
  }

  lemma {:induction false} BusyUpdate(status: seq<Status>, i: nat, x: Status)
    requires i < |status|
    ensures Busy(status[i := x]) == Busy(status)
      - (if status[i] == Running then 1 else 0) + (if x == Running then 1 else 0)
  {
    if i == 0 {
      assert status[i := x][1..] == status[1..];
    } else {
      assert status[i := x][1..] == status[1..][i - 1 := x];
      BusyUpdate(status[1..], i - 1, x);
    }
  }

  lemma {:induction false} IdlePool(status: seq<Status>)
    requires forall i :: 0 <= i < |status| ==> status[i] != Running
    ensures Busy(status) == 0
  {
    if status != [] {
      IdlePool(status[1..]);
    }
  }

  lemma InitInv(g: Group)
    requires Runnable(g)
    ensures Inv(g, Init(g))
  {
    IdlePool(Init(g).status);
  }

  lemma CollectAt(g: Group, s: State, k: nat, i: nat)
    requires Runnable(g) && |s.status| == |g.steps| && Enabled(g, s, Collect(k))
    requires At(g, s, i) && At(g, s, k)
    ensures At(g, AfterCollect(g, s, k), i)
  {
  }

  lemma CancelAt(g: Group, s: State, i: nat)
    requires Runnable(g) && |s.status| == |g.steps| && Enabled(g, s, CancelNext)
    requires At(g, s, i) && At(g, s, s.main.next) && s.stopped
    ensures At(g, Apply(g, s, CancelNext), i)
  {
  }

  lemma MoveAt(g: Group, s: State, a: Action, i: nat)
    requires Runnable(g) && |s.status| == |g.steps| && Enabled(g, s, a) && !a.Collect? && !a.CancelNext?
    requires At(g, s, i) && (s.main.Submitting? ==> s.collected == {})
    ensures At(g, Apply(g, s, a), i)
  {
  }

  lemma ApplyAt(g: Group, s: State, a: Action, i: nat)
    requires Inv(g, s) && Enabled(g, s, a)
    ensures At(g, Apply(g, s, a), i)
  {
    assert At(g, s, i);
    match a {
      case Collect(k) =>
        assert At(g, s, k);
        CollectAt(g, s, k, i);
      case CancelNext =>
        assert At(g, s, s.main.next);
        CancelAt(g, s, i);
      case _ => MoveAt(g, s, a, i);
    }
  }

  lemma ApplyKeepsBusy(g: Group, s: State, a: Action)
    requires Inv(g, s) && Enabled(g, s, a)
    ensures Busy(Apply(g, s, a).status) <= g.workers
  {
    match a {
      case Submit => BusyUpdate(s.status, s.main.next, Queued);
      case Start(i) => BusyUpdate(s.status, i, Running);
      case Finish(i) => BusyUpdate(s.status, i, Finished);
      case Notify(i) => BusyUpdate(s.status, i, Notified);
      case Collect(i) =>
      case CancelNext => BusyUpdate(s.status, s.main.next, Cancelled);
    }
  }

  lemma ApplyKeepsStop(g: Group, s: State, a: Action)
    requires Inv(g, s) && Enabled(g, s, a)
    ensures var s' := Apply(g, s, a);
      && (s'.stopped ==> exists i :: i in s'.completed && Failing(g, i))
      && (s'.main.Submitting? ==> s'.main.next < |s'.status| && s'.collected == {})
      && (s'.main.Cancelling? ==> s'.main.next < |s'.status| && s'.stopped && s'.main.source in s'.completed)
  {
    var s' := Apply(g, s, a);
    if s.stopped {
      var i :| i in s.completed && Failing(g, i);
      assert i in s'.completed;
    } else if s'.stopped {
      assert a.step in s'.completed && Failing(g, a.step);
    }
    if a.Collect? {
      assert At(g, s, a.step);
    }
  }

  lemma ApplyKeepsInv(g: Group, s: State, a: Action)
    requires Inv(g, s) && Enabled(g, s, a)
    ensures Inv(g, Apply(g, s, a))
  {
    forall i: nat
      ensures At(g, Apply(g, s, a), i)
    {
      ApplyAt(g, s, a, i);
    }
    ApplyKeepsBusy(g, s, a);
    ApplyKeepsStop(g, s, a);
    if a.Start? {
      assert At(g, s, a.step);
    }
  }

  // ----- termination -----

  function Weight(status: Status, collected: bool): nat {
    if collected then 0
    else
      match status
      case Unsubmitted => 4
      case Queued => 3
      case Running => 2
      case Cancelled => 2
      case Finished => 1
      case Notified => 1
  }

  function Total(weights: seq<nat>): nat {
    if weights == [] then 0 else weights[0] + Total(weights[1..])
  }

  function Weights(s: State): seq<nat> {
    seq(|s.status|, i requires 0 <= i < |s.status| => Weight(s.status[i], i in s.collected))
  }

  function CancelBudget(s: State): nat {
    if s.main.Cancelling? then (if s.main.next < |s.status| then |s.status| - s.main.next else 0)
    else if s.stopped then 0
    else |s.status|
  }

  /** The number of actions still possible is at most this. */
  function Measure(s: State): nat {
    Total(Weights(s)) + CancelBudget(s)
  }

  lemma {:induction false} TotalUpdate(weights: seq<nat>, i: nat, x: nat)
    requires i < |weights|
    ensures Total(weights[i := x]) == Total(weights) - weights[i] + x
  {
    if i == 0 {
      assert weights[i := x][1..] == weights[1..];
    } else {
      assert weights[i := x][1..] == weights[1..][i - 1 := x];
      TotalUpdate(weights[1..], i - 1, x);
    }
  }

  lemma {:induction false} TotalConstant(weights: seq<nat>, x: nat)
    requires forall i :: 0 <= i < |weights| ==> weights[i] == x
    ensures Total(weights) == x * |weights|
  {
    if weights != [] {
      TotalConstant(weights[1..], x);
    }
  }

  function Mover(s: State, a: Action): nat {
    match a
    case Submit => if s.main.Submitting? then s.main.next else 0
    case CancelNext => if s.main.Cancelling? then s.main.next else 0
    case _ => a.step
  }

  /** The future an action moves gets lighter. */
  lemma MoverGetsLighter(g: Group, s: State, a: Action)
    requires Inv(g, s) && Enabled(g, s, a)
    ensures Mover(s, a) < |s.status| == |Apply(g, s, a).status|
    ensures var i, s' := Mover(s, a), Apply(g, s, a);
      Weight(s'.status[i], i in s'.collected) + (if a == CancelNext then 0 else 1)
        <= Weight(s.status[i], i in s.collected)
  {
    assert At(g, s, Mover(s, a));
  }

  /** The others keep their weight. */
  lemma OthersKeepWeight(g: Group, s: State, a: Action, j: nat)
    requires Runnable(g) && |s.status| == |g.steps| && Enabled(g, s, a) && j < |s.status| && j != Mover(s, a)
    ensures j < |Apply(g, s, a).status| && Apply(g, s, a).status[j] == s.status[j]
    ensures j in Apply(g, s, a).collected <==> j in s.collected
  {
  }

  lemma ApplyWeights(g: Group, s: State, a: Action)
    requires Inv(g, s) && Enabled(g, s, a)
    ensures Mover(s, a) < |s.status| == |Apply(g, s, a).status|
    ensures var i, s' := Mover(s, a), Apply(g, s, a);
      && Weights(s') == Weights(s)[i := Weights(s')[i]]
      && Weights(s')[i] + (if a == CancelNext then 0 else 1) <= Weights(s)[i]
  {
    var w, w', i := Weights(s), Weights(Apply(g, s, a)), Mover(s, a);
    MoverGetsLighter(g, s, a);
    forall j: nat | j < |w|
      ensures w'[j] == w[i := w'[i]][j]
    {
      if j != i {
        OthersKeepWeight(g, s, a, j);
      }
    }
  }

  lemma ApplyDecreases(g: Group, s: State, a: Action)
    requires Inv(g, s) && Enabled(g, s, a)
    ensures Measure(Apply(g, s, a)) < Measure(s)
  {
    var w, w', i := Weights(s), Weights(Apply(g, s, a)), Mover(s, a);
    ApplyWeights(g, s, a);
    TotalUpdate(w, i, w'[i]);
    assert CancelBudget(Apply(g, s, a)) <= CancelBudget(s) - (if a == CancelNext then 1 else 0);
  }

  lemma InitMeasure(g: Group)
    requires Runnable(g)
    ensures Measure(Init(g)) == 5 * |g.steps|
  {
    TotalConstant(Weights(Init(g)), 4);
  }

  /** Run a list of actions; None when one of them is not enabled. */
  ghost function Replay(g: Group, s: State, actions: seq<Action>): Option<State>
    requires Runnable(g) && |s.status| == |g.steps|
    decreases |actions|
  {
    if actions == [] then Some(s)
    else if !Enabled(g, s, actions[0]) then None
    else Replay(g, Apply(g, s, actions[0]), actions[1..])
  }

  lemma {:induction false} ReplayKeepsInv(g: Group, s: State, actions: seq<Action>)
    requires Inv(g, s) && Replay(g, s, actions).Some?
    ensures Inv(g, Replay(g, s, actions).value)
    ensures |actions| + Measure(Replay(g, s, actions).value) <= Measure(s)
    decreases |actions|
  {
    if actions != [] {
      ApplyKeepsInv(g, s, actions[0]);
      ApplyDecreases(g, s, actions[0]);
      ReplayKeepsInv(g, Apply(g, s, actions[0]), actions[1..]);
    }
  }

  /** No interleaving is longer than five actions per step. */
  lemma {:induction false} EveryRunIsShort(g: Group, actions: seq<Action>)
    requires Runnable(g) && Replay(g, Init(g), actions).Some?
    ensures Inv(g, Replay(g, Init(g), actions).value)
    ensures |actions| <= 5 * |g.steps|
  {
    InitInv(g);
    InitMeasure(g);
    ReplayKeepsInv(g, Init(g), actions);
  }

  function FirstUncollected(s: State, from: nat): (i: nat)
    requires from <= |s.status|
    ensures from <= i <= |s.status|
    ensures i < |s.status| ==> i !in s.collected
    ensures forall j :: from <= j < i ==> j in s.collected
    decreases |s.status| - from
  {
    if from == |s.status| || from !in s.collected then from else FirstUncollected(s, from + 1)
  }

  function FirstRunning(status: seq<Status>): (i: nat)
    requires 0 < Busy(status)
    ensures i < |status| && status[i] == Running
  {
    if status[0] == Running then 0 else 1 + FirstRunning(status[1..])
  }

  lemma {:induction false} NobodyWaits(status: seq<Status>, i: nat)
    requires i <= |status| && forall j :: 0 <= j < i ==> status[j] != Queued && status[j] != Cancelled
    ensures Waiting(status, i) == 0
  {
    if i > 0 {
      NobodyWaits(status, i - 1);
    }
  }

  lemma {:induction false} OldestWaitsForNobody(g: Group, s: State, i: nat)
    requires Inv(g, s) && i <= |s.status| && forall j :: 0 <= j < i ==> j in s.collected
    ensures Waiting(s.status, i) == 0
  {
    forall j | 0 <= j < i
      ensures s.status[j] != Queued && s.status[j] != Cancelled
    {
      assert At(g, s, j);
    }
    NobodyWaits(s.status, i);
  }

  /** Some action is enabled until every future has been collected: the group cannot deadlock. */
  function AnyEnabled(g: Group, s: State): (a: Action)
    requires Inv(g, s) && !Final(s)
    ensures Enabled(g, s, a)
  {
    if s.main.Submitting? then Submit
    else if s.main.Cancelling? then CancelNext
    else
      var i := FirstUncollected(s, 0);
      OldestWaitsForNobody(g, s, i);
      match s.status[i]
      case Finished => Collect(i)
      case Notified => Collect(i)
      case Running => Finish(i)
      case Queued => if WorkerFor(g, s.status, i) then Start(i) else Finish(FirstRunning(s.status))
      case Cancelled => if WorkerFor(g, s.status, i) then Notify(i) else Finish(FirstRunning(s.status))
  }

  /** An interleaving chosen tick by tick. A choice that is not enabled is replaced, so every
      function is a schedule, and every complete run is the run of one (SchedulesCoverAllRuns). */
  type Schedule = nat -> Action

  function Choose(g: Group, s: State, schedule: Schedule, tick: nat): (a: Action)
    requires Inv(g, s) && !Final(s)
    ensures Enabled(g, s, a)
  {
    if Enabled(g, s, schedule(tick)) then schedule(tick) else AnyEnabled(g, s)
  }

  function RunFrom(g: Group, s: State, schedule: Schedule, tick: nat): (final: State)
    requires Inv(g, s)
    ensures Inv(g, final) && Final(final)
    decreases Measure(s)
  {
    if Final(s) then s
    else
      var a := Choose(g, s, schedule, tick);
      ApplyKeepsInv(g, s, a);
      ApplyDecreases(g, s, a);
      RunFrom(g, Apply(g, s, a), schedule, tick + 1)
  }

  function RunGroup(g: Group, schedule: Schedule): (final: State)
    requires Runnable(g)
    ensures Inv(g, final) && Final(final)
  {
    InitInv(g);
    RunFrom(g, Init(g), schedule, 0)
  }

  lemma EnabledIsNotFinal(g: Group, s: State, a: Action)
    requires Inv(g, s) && Enabled(g, s, a)
    ensures !Final(s)
  {
    if !a.Submit? && !a.CancelNext? {
      assert At(g, s, a.step);
    }
  }

  lemma {:induction false} RunFollows(g: Group, s: State, schedule: Schedule, tick: nat)
    requires Inv(g, s) && Enabled(g, s, schedule(tick))
    ensures Inv(g, Apply(g, s, schedule(tick)))
    ensures RunFrom(g, s, schedule, tick) == RunFrom(g, Apply(g, s, schedule(tick)), schedule, tick + 1)
  {
    EnabledIsNotFinal(g, s, schedule(tick));
    ApplyKeepsInv(g, s, schedule(tick));
  }

  /** A schedule that begins with `actions` passes through the state they lead to. */
  lemma {:induction false} SchedulePasses(g: Group, s: State, actions: seq<Action>, schedule: Schedule, i: nat)
    requires Inv(g, s) && i <= |actions| && Replay(g, s, actions[i..]).Some?
    requires forall k :: 0 <= k < |actions| ==> schedule(k) == actions[k]
    ensures Inv(g, Replay(g, s, actions[i..]).value)
    ensures RunFrom(g, s, schedule, i) == RunFrom(g, Replay(g, s, actions[i..]).value, schedule, |actions|)
    decreases |actions| - i
  {
    if i < |actions| {
      assert actions[i..][1..] == actions[i + 1..];
      RunFollows(g, s, schedule, i);
      SchedulePasses(g, Apply(g, s, actions[i]), actions, schedule, i + 1);
    }
  }

  lemma ScheduleThrough(g: Group, actions: seq<Action>) returns (schedule: Schedule)
    requires Runnable(g) && Replay(g, Init(g), actions).Some?
    ensures Inv(g, Replay(g, Init(g), actions).value)
    ensures RunGroup(g, schedule) == RunFrom(g, Replay(g, Init(g), actions).value, schedule, |actions|)
  {
    InitInv(g);
    schedule := (k: nat) => if k < |actions| then actions[k] else Submit;
    assert actions[0..] == actions;
    SchedulePasses(g, Init(g), actions, schedule, 0);
  }

  lemma SchedulesCoverAllRuns(g: Group, actions: seq<Action>) returns (schedule: Schedule)
    requires Runnable(g)
    requires Replay(g, Init(g), actions).Some? && Final(Replay(g, Init(g), actions).value)
    ensures RunGroup(g, schedule) == Replay(g, Init(g), actions).value
  {
    schedule := ScheduleThrough(g, actions);
  }
}
