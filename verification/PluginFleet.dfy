/** Plugins by identifier, in registration order. */
module PluginRegistries {
  import opened Kernel
  import opened OrderedDict
  import opened PluginLifecycles

  datatype RegistrationError = AlreadyRegistered | NotRegistered

  type Registry = Dict<string, Plugin>

  /** Each plugin sits under its own identifier, once. */
  ghost predicate RegistryInv(d: Registry) {
    Distinct(Keys(d)) && forall i :: 0 <= i < |d| ==> d[i].0 == d[i].1.id
  }

  lemma {:induction false} RegisterKeepsInv(d: Registry, plugin: Plugin)
    requires RegistryInv(d) && plugin.id !in Keys(d)
    ensures RegistryInv(d + [(plugin.id, plugin)]) && Put(d, plugin.id, plugin) == d + [(plugin.id, plugin)]
  {
    PutKeys(d, plugin.id, plugin);
    PutDistinct(d, plugin.id, plugin);
  }

  lemma {:induction false} UnregisterKeepsInv(d: Registry, id: string)
    requires RegistryInv(d)
    ensures RegistryInv(Remove(d, id))
  {
    RemoveGets(d, id, id);
    RemoveEntries(d, id);
    var after := Remove(d, id);
    forall i | 0 <= i < |after|
      ensures after[i].0 == after[i].1.id
    {
      assert after[i] in after;
    }
  }

  class PluginRegistry {
    var plugins: Registry

    ghost predicate Valid()
      reads this
    {
      RegistryInv(plugins)
    }

    constructor ()
      ensures Valid() && plugins == []
    {
      plugins := [];
    }

    /** A new plugin is enumerated last; a taken identifier is refused. */
    method Register(plugin: Plugin) returns (error: Option<RegistrationError>)
      requires Valid()
      modifies this
      ensures Valid()
      ensures if plugin.id in Keys(old(plugins)) then error == Some(AlreadyRegistered) && plugins == old(plugins)
              else error.None? && plugins == old(plugins) + [(plugin.id, plugin)]
    {
      GetFinds(plugins, plugin.id);
      if Get(plugins, plugin.id).Some? {
        return Some(AlreadyRegistered);
      }
      RegisterKeepsInv(plugins, plugin);
      plugins := Put(plugins, plugin.id, plugin);
      return None;
    }

    method Unregister(id: string) returns (error: Option<RegistrationError>)
      requires Valid()
      modifies this
      ensures Valid()
      ensures error == if id in Keys(old(plugins)) then None else Some(NotRegistered)
      ensures plugins == Remove(old(plugins), id)
      ensures id !in Keys(plugins)
      ensures forall other :: other != id ==> Get(plugins, other) == Get(old(plugins), other)
    {
      GetFinds(plugins, id);
      forall other
        ensures Get(Remove(plugins, id), other) == if other == id then None else Get(plugins, other)
      {
        RemoveGets(plugins, id, other);
      }
      UnregisterKeepsInv(plugins, id);
      error := if Get(plugins, id).Some? then None else Some(NotRegistered);
      plugins := Remove(plugins, id);
      GetFinds(plugins, id);
    }

    method Lookup(id: string) returns (r: Fallible<Plugin, RegistrationError>)
      ensures if id in Keys(plugins) then r.Ok? && Get(plugins, id) == Some(r.value) else r == Err(NotRegistered)
    {
      GetFinds(plugins, id);
      var found := Get(plugins, id);
      r := if found.Some? then Ok(found.value) else Err(NotRegistered);
    }

    method Exists(id: string) returns (known: bool)
      ensures known <==> id in Keys(plugins)
    {
      GetFinds(plugins, id);
      known := Get(plugins, id).Some?;
    }

    method Enumerate() returns (ids: seq<string>)
      ensures ids == Keys(plugins)
    {
      ids := Keys(plugins);
    }
  }
}

/** Driving every registered plugin's lifecycle, as operations on values. */
module PluginFleets {
  import opened Kernel
  import opened OrderedDict
  import opened PluginLifecycles
  import opened PluginRegistries

  /** A lifecycle object: the plugin it was made for, and how far that plugin is. */
  datatype Cycle = Cycle(plugin: Plugin, life: Life)

  /** The engine's cache of lifecycles, by plugin identifier. */
  type Fleet = map<string, Cycle>

  datatype Command = StartAll | StopAll | DisposeAll

  function Call(cycle: Cycle, callback: Callback): (Cycle, Option<Error>) {
    var (life, error) := Act(cycle.life, callback, cycle.plugin.succeeds(|cycle.life.log|));
    (cycle.(life := life), error)
  }

  /** What one fleet command does to one lifecycle. */
  function DriveOne(cycle: Cycle, command: Command): (Cycle, Option<Error>) {
    match command
    case StartAll =>
      var (ready, error) := if cycle.life.state == Registered then Call(cycle, Initialize) else (cycle, None);
      if error.Some? then (ready, error) else Call(ready, Start)
    case StopAll => Call(cycle, Stop)
    case DisposeAll => Call(cycle, Dispose)
  }

  /** The cached lifecycle of a plugin, or a new one. */
  function CycleFor(fleet: Fleet, id: string, plugin: Plugin): Cycle {
    if id in fleet then fleet[id] else Cycle(plugin, FRESH)
  }

  /** One command over the registered plugins in order, from position `i`, up to the first error. */
  function Drive(fleet: Fleet, d: Registry, command: Command, i: nat): (Fleet, Option<Error>)
    requires i <= |d|
    decreases |d| - i
  {
    if i == |d| then (fleet, None)
    else
      var (cycle, error) := DriveOne(CycleFor(fleet, d[i].0, d[i].1), command);
      var after := fleet[d[i].0 := cycle];
      if error.Some? then (after, error) else Drive(after, d, command, i + 1)
  }

  // ----- one lifecycle -----

  /** Whether a command succeeds on a lifecycle: the state admits it and the callbacks it makes return. */
  predicate Succeeds(cycle: Cycle, command: Command) {
    var n, works := |cycle.life.log|, cycle.plugin.succeeds;
    match command
    case StartAll =>
      (cycle.life.state == Registered && works(n) && works(n + 1))
      || (cycle.life.state in {Initialized, Stopped} && works(n))
    case StopAll => cycle.life.state == Running && works(n)
    case DisposeAll =>
      cycle.life.state == Disposed
      || (cycle.life.state in {Registered, Initialized, Stopped, Failed} && works(n))
  }

  function Goal(command: Command): State {
    match command
    case StartAll => Running
    case StopAll => Stopped
    case DisposeAll => Disposed
  }

  /** A command succeeds exactly when it can, and then reaches its goal; otherwise it left the
      lifecycle alone or the plugin failed. */
  lemma DriveOneOutcome(cycle: Cycle, command: Command)
    ensures DriveOne(cycle, command).1.None? <==> Succeeds(cycle, command)
    ensures Succeeds(cycle, command) ==> DriveOne(cycle, command).0.life.state == Goal(command)
    ensures DriveOne(cycle, command).1 == Some(IllegalState) ==> DriveOne(cycle, command).0 == cycle
    ensures DriveOne(cycle, command).1 == Some(PluginFailed) ==> DriveOne(cycle, command).0.life.state == Failed
    ensures DriveOne(cycle, command).0.plugin == cycle.plugin
  {
  }

  /** Whether a plugin that received `log` received `callback` last, successfully. */
  ghost predicate Last(log: seq<PluginLifecycles.Call>, callback: Callback) {
    log != [] && log[|log| - 1] == PluginLifecycles.Call(callback, true)
  }

  /** One more callback: it is logged as the plugin took it, and fails the command if it failed. */
  ghost predicate Makes(cycle: Cycle, after: Cycle, error: Option<Error>, callback: Callback) {
    var ok := cycle.plugin.succeeds(|cycle.life.log|);
    && after.plugin == cycle.plugin
    && after.life.log == cycle.life.log + [PluginLifecycles.Call(callback, ok)]
    && error == (if ok then None else Some(PluginFailed))
  }

  /** The callbacks a command makes, in terms of those the plugin received before. Starting initializes a
      plugin that received nothing, and then starts it, or starts one just initialized or stopped;
      stopping stops a started one; disposing disposes any but a started one, a disposed one never again. */
  lemma CommandMakes(cycle: Cycle, command: Command)
    requires LifeInv(cycle.life)
    ensures var (after, error) := DriveOne(cycle, command);
      var log := cycle.life.log;
      var refused := after == cycle && error == Some(IllegalState);
      match command
      case StartAll =>
        if log == [] then
          if cycle.plugin.succeeds(0)
          then exists ready :: Makes(cycle, ready, None, Initialize) && Makes(ready, after, error, Start)
          else Makes(cycle, after, error, Initialize)
        else if Last(log, Initialize) || Last(log, Stop) then Makes(cycle, after, error, Start)
        else refused
      case StopAll => if Last(log, Start) then Makes(cycle, after, error, Stop) else refused
      case DisposeAll =>
        if Last(log, Dispose) then after == cycle && error.None?
        else if Last(log, Start) then refused
        else Makes(cycle, after, error, Dispose)
  {
    StateTells(cycle.life);
    if command.StartAll? && cycle.life.log == [] && cycle.plugin.succeeds(0) {
      var ready := Call(cycle, Initialize).0;
      assert Makes(cycle, ready, None, Initialize);
    }
  }

  // ----- the whole fleet -----

  /** How far a command gets from position `i`: the plugin at `k` is the first it fails on, or there is none. */
  ghost predicate Reaches(fleet: Fleet, d: Registry, command: Command, i: nat, k: nat) {
    && i <= k <= |d|
    && (forall j :: i <= j < k ==> Succeeds(CycleFor(fleet, d[j].0, d[j].1), command))
    && (k < |d| ==> !Succeeds(CycleFor(fleet, d[k].0, d[k].1), command))
  }

  lemma SomethingIsReached(fleet: Fleet, d: Registry, command: Command) returns (k: nat)
    ensures Reaches(fleet, d, command, 0, k)
  {
    k := 0;
    while k < |d| && Succeeds(CycleFor(fleet, d[k].0, d[k].1), command)
      invariant k <= |d|
      invariant forall j :: 0 <= j < k ==> Succeeds(CycleFor(fleet, d[j].0, d[j].1), command)
    {
      k := k + 1;
    }
  }

  lemma OthersStay(fleet: Fleet, d: Registry, i: nat, j: nat, cycle: Cycle)
    requires RegistryInv(d) && i < |d| && j < |d| && i != j
    ensures d[i].0 != d[j].0
    ensures CycleFor(fleet[d[i].0 := cycle], d[j].0, d[j].1) == CycleFor(fleet, d[j].0, d[j].1)
  {
    assert Keys(d)[i] != Keys(d)[j];
  }

  lemma ReachesOn(fleet: Fleet, d: Registry, command: Command, i: nat, k: nat)
    requires RegistryInv(d) && Reaches(fleet, d, command, i, k) && i < k
    ensures Reaches(fleet[d[i].0 := DriveOne(CycleFor(fleet, d[i].0, d[i].1), command).0], d, command, i + 1, k)
    ensures DriveOne(CycleFor(fleet, d[i].0, d[i].1), command).1.None?
  {
    var cycle := CycleFor(fleet, d[i].0, d[i].1);
    DriveOneOutcome(cycle, command);
    forall j | i < j < |d|
      ensures CycleFor(fleet[d[i].0 := DriveOne(cycle, command).0], d[j].0, d[j].1) == CycleFor(fleet, d[j].0, d[j].1)
    {
      OthersStay(fleet, d, i, j, DriveOne(cycle, command).0);
    }
  }

  /** A lifecycle no driven position names stays as it was. */
  lemma {:induction false} DriveLeaves(fleet: Fleet, d: Registry, command: Command, i: nat, k: nat, id: string)
    requires RegistryInv(d) && Reaches(fleet, d, command, i, k)
    requires forall j :: i <= j <= k && j < |d| ==> id != d[j].0
    ensures id in Drive(fleet, d, command, i).0 <==> id in fleet
    ensures id in fleet ==> Drive(fleet, d, command, i).0[id] == fleet[id]
    decreases |d| - i
  {
    if i < |d| {
      var cycle := CycleFor(fleet, d[i].0, d[i].1);
      DriveOneOutcome(cycle, command);
      if i < k {
        ReachesOn(fleet, d, command, i, k);
        DriveLeaves(fleet[d[i].0 := DriveOne(cycle, command).0], d, command, i + 1, k, id);
      }
    }
  }

  /** Each position up to the first offender is driven once, from the lifecycle it had at the start. */
  lemma {:induction false} DriveReaches(fleet: Fleet, d: Registry, command: Command, i: nat, k: nat, j: nat)
    requires RegistryInv(d) && Reaches(fleet, d, command, i, k) && i <= j <= k && j < |d|
    ensures d[j].0 in Drive(fleet, d, command, i).0
    ensures Drive(fleet, d, command, i).0[d[j].0] == DriveOne(CycleFor(fleet, d[j].0, d[j].1), command).0
    decreases |d| - i
  {
    var cycle := CycleFor(fleet, d[i].0, d[i].1);
    var driven := DriveOne(cycle, command).0;
    var after := fleet[d[i].0 := driven];
    DriveOneOutcome(cycle, command);
    if i < k {
      ReachesOn(fleet, d, command, i, k);
      if i == j {
        forall m | i < m < |d|
          ensures d[i].0 != d[m].0
        {
          OthersStay(fleet, d, i, m, driven);
        }
        DriveLeaves(after, d, command, i + 1, k, d[i].0);
      } else {
        OthersStay(fleet, d, i, j, driven);
        DriveReaches(after, d, command, i + 1, k, j);
      }
    }
  }

  /** A fleet command returns normally exactly when it succeeds on every registered plugin, and then
      leaves every one of them at its goal. Otherwise it left a prefix at the goal and drove the first
      offender once. */
  lemma {:induction false} DrivesPrefix(fleet: Fleet, d: Registry, command: Command, k: nat)
    requires RegistryInv(d) && Reaches(fleet, d, command, 0, k)
    ensures Drive(fleet, d, command, 0).1.None? <==> k == |d|
    ensures forall i :: 0 <= i < k ==> d[i].0 in Drive(fleet, d, command, 0).0
    ensures forall i :: 0 <= i < k ==> Drive(fleet, d, command, 0).0[d[i].0].life.state == Goal(command)
    ensures k < |d| ==> d[k].0 in Drive(fleet, d, command, 0).0
    ensures k < |d| ==> Drive(fleet, d, command, 0).0[d[k].0] == DriveOne(CycleFor(fleet, d[k].0, d[k].1), command).0
    ensures k < |d| ==> Drive(fleet, d, command, 0).1 == DriveOne(CycleFor(fleet, d[k].0, d[k].1), command).1
  {
    DriveOutcome(fleet, d, command, 0, k);
    forall i | 0 <= i < k
      ensures d[i].0 in Drive(fleet, d, command, 0).0
      ensures Drive(fleet, d, command, 0).0[d[i].0].life.state == Goal(command)
    {
      DriveReaches(fleet, d, command, 0, k, i);
      DriveOneOutcome(CycleFor(fleet, d[i].0, d[i].1), command);
    }
    if k < |d| {
      DriveReaches(fleet, d, command, 0, k, k);
    }
  }

  lemma {:induction false} DriveOutcome(fleet: Fleet, d: Registry, command: Command, i: nat, k: nat)
    requires RegistryInv(d) && Reaches(fleet, d, command, i, k)
    ensures Drive(fleet, d, command, i).1.None? <==> k == |d|
    ensures k < |d| ==> Drive(fleet, d, command, i).1 == DriveOne(CycleFor(fleet, d[k].0, d[k].1), command).1
    decreases |d| - i
  {
    if i < |d| {
      DriveOneOutcome(CycleFor(fleet, d[i].0, d[i].1), command);
      if i < k {
        ReachesOn(fleet, d, command, i, k);
        if k < |d| {
          OthersStay(fleet, d, i, k, DriveOne(CycleFor(fleet, d[i].0, d[i].1), command).0);
        }
        DriveOutcome(fleet[d[i].0 := DriveOne(CycleFor(fleet, d[i].0, d[i].1), command).0], d, command, i + 1, k);
      }
    }
  }

  /** Nothing behind the first offender, and no lifecycle of an unregistered plugin, is touched. */
  lemma {:induction false} RestUntouched(fleet: Fleet, d: Registry, command: Command, k: nat, id: string)
    requires RegistryInv(d) && Reaches(fleet, d, command, 0, k)
    requires id !in Keys(d) || exists i :: k < i < |d| && d[i].0 == id
    ensures id in Drive(fleet, d, command, 0).0 <==> id in fleet
    ensures id in fleet ==> Drive(fleet, d, command, 0).0[id] == fleet[id]
  {
    forall j | 0 <= j <= k && j < |d|
      ensures id != d[j].0
    {
      assert Keys(d)[j] == d[j].0;
      if id in Keys(d) {
        var i :| k < i < |d| && d[i].0 == id;
        assert Keys(d)[i] != Keys(d)[j];
      }
    }
    DriveLeaves(fleet, d, command, 0, k, id);
  }
}
