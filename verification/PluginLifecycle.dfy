/** The lifecycle of one plugin: legal transitions, and the calls the plugin receives. */
module PluginLifecycles {
  import opened Kernel

  datatype State = Registered | Initialized | Running | Stopped | Disposed | Failed

  datatype Callback = Initialize | Start | Stop | Dispose

  /** A callback the plugin received, and whether it returned normally. */
  datatype Call = Call(callback: Callback, ok: bool)

  datatype Error = IllegalState | PluginFailed

  /** A lifecycle's state, with every call its plugin has received through it. */
  datatype Life = Life(state: State, log: seq<Call>)

  const FRESH := Life(Registered, [])

  predicate Allowed(state: State, callback: Callback) {
    match callback
    case Initialize => state == Registered
    case Start => state == Initialized || state == Stopped
    case Stop => state == Running
    case Dispose => state == Registered || state == Initialized || state == Stopped || state == Failed
  }

  function Target(callback: Callback): State {
    match callback
    case Initialize => Initialized
    case Start => Running
    case Stop => Stopped
    case Dispose => Disposed
  }

  /** One lifecycle call, when the plugin's callback returns normally exactly if `ok`. */
  function Act(life: Life, callback: Callback, ok: bool): (Life, Option<Error>) {
    if callback == Dispose && life.state == Disposed then (life, None)
    else if !Allowed(life.state, callback) then (life, Some(IllegalState))
    else if ok then (Life(Target(callback), life.log + [Call(callback, true)]), None)
    else (Life(Failed, life.log + [Call(callback, false)]), Some(PluginFailed))
  }

  /** A sequence of lifecycle calls, each with what the plugin would do. */
  function Acts(calls: seq<Call>): Life
    decreases |calls|
  {
    if calls == [] then FRESH
    else Act(Acts(calls[..|calls| - 1]), calls[|calls| - 1].callback, calls[|calls| - 1].ok).0
  }

  // ----- what a plugin can see -----

  /** Whether a plugin that received `a` last may receive `next`. */
  predicate Follows(a: Call, next: Callback) {
    if !a.ok then next == Dispose
    else
      match a.callback
      case Initialize => next == Start || next == Dispose
      case Start => next == Stop
      case Stop => next == Start || next == Dispose
      case Dispose => false
  }

  predicate Opens(first: Callback) {
    first == Initialize || first == Dispose
  }

  ghost predicate Legal(log: seq<Call>) {
    && (log != [] ==> Opens(log[0].callback))
    && forall i {:trigger log[i]} :: 0 < i < |log| ==> Follows(log[i - 1], log[i].callback)
  }

  /** The state the calls so far leave. */
  function StateAfter(log: seq<Call>): State {
    if log == [] then Registered
    else if log[|log| - 1].ok then Target(log[|log| - 1].callback)
    else Failed
  }

  ghost predicate LifeInv(life: Life) {
    Legal(life.log) && life.state == StateAfter(life.log)
  }

  predicate MayFollow(log: seq<Call>, next: Callback) {
    if log == [] then Opens(next) else Follows(log[|log| - 1], next)
  }

  lemma LegalExtends(log: seq<Call>, call: Call)
    requires Legal(log)
    ensures Legal(log + [call]) <==> MayFollow(log, call.callback)
  {
    var next := log + [call];
    assert next[|log|] == call;
    if log != [] {
      assert next[0] == log[0] && next[|log| - 1] == log[|log| - 1];
      forall i {:trigger next[i]} | 0 < i < |log|
        ensures Follows(next[i - 1], next[i].callback)
      {
        assert next[i] == log[i] && next[i - 1] == log[i - 1];
      }
    }
  }

  lemma AllowedMeansMayFollow(life: Life, callback: Callback)
    requires life.state == StateAfter(life.log)
    ensures Allowed(life.state, callback) <==> MayFollow(life.log, callback)
  {
  }

  /** A lifecycle call reaches the plugin exactly when the plugin's calls stay legal with it. */
  lemma ActReachesExactlyLegal(life: Life, callback: Callback, ok: bool)
    requires LifeInv(life)
    ensures LifeInv(Act(life, callback, ok).0)
    ensures Act(life, callback, ok).0.log
         == if Legal(life.log + [Call(callback, ok)]) then life.log + [Call(callback, ok)] else life.log
  {
    LegalExtends(life.log, Call(callback, ok));
    AllowedMeansMayFollow(life, callback);
  }

  /** A lifecycle call is refused, changing nothing, exactly when its callback must not come next: at
      any time but the start for `initialize`, unless just initialized or stopped for `start`, unless
      just started for `stop`, and while running for `dispose`, which a disposed plugin ignores. */
  lemma RefusalIsExact(life: Life, callback: Callback, ok: bool)
    requires LifeInv(life)
    ensures var (after, error) := Act(life, callback, ok);
      && (error == Some(IllegalState) ==> after == life)
      && (error == Some(IllegalState)
          <==> match callback
               case Initialize => life.log != []
               case Start => life.log == [] || life.log[|life.log| - 1] !in [Call(Initialize, true), Call(Stop, true)]
               case Stop => life.log == [] || life.log[|life.log| - 1] != Call(Start, true)
               case Dispose => life.log != [] && life.log[|life.log| - 1] == Call(Start, true))
  {
    if life.log != [] {
      var last := life.log[|life.log| - 1];
      assert last == Call(last.callback, last.ok);
    }
  }

  /** The state says what the plugin received last: nothing, a callback that failed, or the successful
      callback it is named after. */
  lemma StateTells(life: Life)
    requires LifeInv(life)
    ensures match life.state
      case Registered => life.log == []
      case Initialized => life.log != [] && life.log[|life.log| - 1] == Call(Initialize, true)
      case Running => life.log != [] && life.log[|life.log| - 1] == Call(Start, true)
      case Stopped => life.log != [] && life.log[|life.log| - 1] == Call(Stop, true)
      case Disposed => life.log != [] && life.log[|life.log| - 1] == Call(Dispose, true)
      case Failed => life.log != [] && !life.log[|life.log| - 1].ok
  {
    if life.log != [] {
      var last := life.log[|life.log| - 1];
      assert last == Call(last.callback, last.ok);
    }
  }

  lemma {:induction false} ActsKeepInv(calls: seq<Call>)
    ensures LifeInv(Acts(calls))
    decreases |calls|
  {
    if calls != [] {
      ActsKeepInv(calls[..|calls| - 1]);
      var last := calls[|calls| - 1];
      ActReachesExactlyLegal(Acts(calls[..|calls| - 1]), last.callback, last.ok);
    }
  }

  lemma LegalPrefix(log: seq<Call>)
    requires Legal(log) && log != []
    ensures Legal(log[..|log| - 1]) && log[..|log| - 1] + [log[|log| - 1]] == log
  {
    var prefix := log[..|log| - 1];
    forall i {:trigger prefix[i]} | 0 < i < |prefix|
      ensures Follows(prefix[i - 1], prefix[i].callback)
    {
      assert prefix[i] == log[i] && prefix[i - 1] == log[i - 1];
    }
  }

  /** Every legal log is produced by some sequence of lifecycle calls: its own. */
  lemma {:induction false} LegalLogsAreReached(log: seq<Call>)
    requires Legal(log)
    ensures Acts(log).log == log
    decreases |log|
  {
    if log != [] {
      var earlier, last := log[..|log| - 1], log[|log| - 1];
      LegalPrefix(log);
      LegalLogsAreReached(earlier);
      ActsKeepInv(earlier);
      ActReachesExactlyLegal(Acts(earlier), last.callback, last.ok);
      assert Call(last.callback, last.ok) == last;
    }
  }

  // ----- what a legal log says -----

  /** What may stand next to a call: `initialize` opens the log, a start comes right after a
      successful initialize or stop, a stop right after a successful start, and a successful
      dispose ends the log. */
  lemma LegalNeighbours(log: seq<Call>, i: nat)
    requires Legal(log) && i < |log|
    ensures log[i].callback == Initialize ==> i == 0
    ensures log[i].callback == Start ==> 0 < i && log[i - 1] in [Call(Initialize, true), Call(Stop, true)]
    ensures log[i].callback == Stop ==> 0 < i && log[i - 1] == Call(Start, true)
    ensures log[i] == Call(Dispose, true) ==> i == |log| - 1
  {
    assert i + 1 < |log| ==> Follows(log[i], log[i + 1].callback);
  }

  lemma {:induction false} OnlyDisposeAfterFailure(log: seq<Call>, i: nat, j: nat)
    requires Legal(log) && i < j < |log| && !log[i].ok
    ensures log[j].callback == Dispose
    decreases j
  {
    assert Follows(log[j - 1], log[j].callback);
    if i < j - 1 {
      OnlyDisposeAfterFailure(log, i, j - 1);
    }
  }

  /** Starts and stops alternate: between two starts there is a stop, right after the first. */
  lemma StartsAlternateWithStops(log: seq<Call>, i: nat, j: nat)
    requires Legal(log) && i < j < |log| && log[i].callback == Start && log[j].callback == Start
    ensures log[i + 1].callback == Stop && i + 1 < j
  {
    assert Follows(log[i], log[i + 1].callback);
    if !log[i].ok {
      OnlyDisposeAfterFailure(log, i, j);
    }
  }

  // ----- the lifecycle as an object -----

  /** A plugin: its identifier, which object it is, and whether its n-th callback returns normally. */
  datatype Plugin = Plugin(id: string, serial: nat, succeeds: nat -> bool)

  class PluginLifecycle {
    const plugin: Plugin
    var state: State
    /** Every call made on `plugin` through this object. */
    var log: seq<Call>

    ghost function View(): Life
      reads this
    {
      Life(state, log)
    }

    constructor (plugin: Plugin)
      ensures this.plugin == plugin && View() == FRESH
    {
      this.plugin := plugin;
      this.state := Registered;
      this.log := [];
    }

    method Initialize() returns (error: Option<Error>)
      modifies this
      ensures (View(), error) == Act(old(View()), Callback.Initialize, plugin.succeeds(|old(log)|))
    {
      error := Require({Registered});
      if error.None? {
        error := Run(Callback.Initialize, Initialized);
      }
    }

    method Start() returns (error: Option<Error>)
      modifies this
      ensures (View(), error) == Act(old(View()), Callback.Start, plugin.succeeds(|old(log)|))
    {
      error := Require({Initialized, Stopped});
      if error.None? {
        error := Run(Callback.Start, Running);
      }
    }

    method Stop() returns (error: Option<Error>)
      modifies this
      ensures (View(), error) == Act(old(View()), Callback.Stop, plugin.succeeds(|old(log)|))
    {
      error := Require({Running});
      if error.None? {
        error := Run(Callback.Stop, Stopped);
      }
    }

    method Dispose() returns (error: Option<Error>)
      modifies this
      ensures (View(), error) == Act(old(View()), Callback.Dispose, plugin.succeeds(|old(log)|))
    {
      if state == Disposed {
        return None;
      }
      error := Require({Registered, Initialized, Stopped, Failed});
      if error.None? {
        error := Run(Callback.Dispose, Disposed);
      }
    }

    method Require(allowed: set<State>) returns (error: Option<Error>)
      ensures error.None? <==> state in allowed
      ensures error.Some? ==> error.value == IllegalState
    {
      error := if state in allowed then None else Some(IllegalState);
    }

    method Run(callback: Callback, next: State) returns (error: Option<Error>)
      modifies this
      ensures var ok := plugin.succeeds(|old(log)|);
        && log == old(log) + [Call(callback, ok)]
        && state == (if ok then next else Failed)
        && error == (if ok then None else Some(PluginFailed))
    {
      var ok := plugin.succeeds(|log|);
      log := log + [Call(callback, ok)];
      if !ok {
        state := Failed;
        return Some(PluginFailed);
      }
      state := next;
      return None;
    }
  }
}
