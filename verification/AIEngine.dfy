/** Whole histories of registrations and fleet commands. */
module EngineHistories {
  import opened Kernel
  import opened OrderedDict
  import opened PluginLifecycles
  import opened PluginRegistries
  import opened PluginFleets

  datatype Event = Register(plugin: Plugin) | Unregister(id: string) | Command(command: PluginFleets.Command)

  datatype Engine = Engine(registry: Registry, fleet: Fleet)

  const EMPTY := Engine([], map[])

  function Step(e: Engine, event: Event): Engine {
    match event
    case Register(plugin) =>
      if Get(e.registry, plugin.id).Some? then e
      else e.(registry := e.registry + [(plugin.id, plugin)])
    case Unregister(id) => e.(registry := Remove(e.registry, id))
    case Command(command) => e.(fleet := Drive(e.fleet, e.registry, command, 0).0)
  }

  function Replay(events: seq<Event>): Engine
    decreases |events|
  {
    if events == [] then EMPTY else Step(Replay(events[..|events| - 1]), events[|events| - 1])
  }

  // ----- every plugin only ever sees a legal sequence of calls -----

  ghost predicate CycleInv(id: string, cycle: Cycle) {
    LifeInv(cycle.life) && cycle.plugin.id == id
  }

  ghost predicate FleetInv(fleet: Fleet) {
    forall id :: id in fleet ==> CycleInv(id, fleet[id])
  }

  lemma DriveOneKeepsInv(id: string, cycle: Cycle, command: PluginFleets.Command)
    requires CycleInv(id, cycle)
    ensures CycleInv(id, DriveOne(cycle, command).0)
  {
    var n := |cycle.life.log|;
    var works := cycle.plugin.succeeds;
    match command
    case StartAll =>
      ActReachesExactlyLegal(cycle.life, Initialize, works(n));
      var ready := PluginFleets.Call(cycle, Initialize).0;
      ActReachesExactlyLegal(ready.life, Start, works(|ready.life.log|));
      ActReachesExactlyLegal(cycle.life, Start, works(n));
    case StopAll =>
      ActReachesExactlyLegal(cycle.life, Stop, works(n));
    case DisposeAll =>
      ActReachesExactlyLegal(cycle.life, Dispose, works(n));
  }

  lemma {:induction false} DriveKeepsInv(fleet: Fleet, d: Registry, command: PluginFleets.Command, i: nat)
    requires RegistryInv(d) && FleetInv(fleet) && i <= |d|
    ensures FleetInv(Drive(fleet, d, command, i).0)
    decreases |d| - i
  {
    if i < |d| {
      var cycle := CycleFor(fleet, d[i].0, d[i].1);
      DriveOneKeepsInv(d[i].0, cycle, command);
      var (driven, error) := DriveOne(cycle, command);
      if error.None? {
        DriveKeepsInv(fleet[d[i].0 := driven], d, command, i + 1);
      }
    }
  }

  /** In every history each plugin's calls, through its lifecycle, are legal. */
  lemma {:induction false} HistoryKeepsInv(events: seq<Event>)
    ensures RegistryInv(Replay(events).registry) && FleetInv(Replay(events).fleet)
    decreases |events|
  {
    if events != [] {
      HistoryKeepsInv(events[..|events| - 1]);
      var e := Replay(events[..|events| - 1]);
      match events[|events| - 1]
      case Register(plugin) =>
        GetFinds(e.registry, plugin.id);
        if Get(e.registry, plugin.id).None? {
          RegisterKeepsInv(e.registry, plugin);
        }
      case Unregister(id) =>
        UnregisterKeepsInv(e.registry, id);
      case Command(command) =>
        DriveKeepsInv(e.fleet, e.registry, command, 0);
    }
  }

  // ----- the cache and the registry -----

  /** Every cached lifecycle belongs to the plugin registered under its identifier. */
  ghost predicate Agree(e: Engine) {
    forall id :: id in e.fleet ==> Get(e.registry, id) == Some(e.fleet[id].plugin)
  }

  lemma {:induction false} DriveKeepsAgreement(fleet: Fleet, d: Registry, command: PluginFleets.Command, i: nat)
    requires RegistryInv(d) && i <= |d| && Agree(Engine(d, fleet))
    ensures Agree(Engine(d, Drive(fleet, d, command, i).0))
    decreases |d| - i
  {
    if i < |d| {
      var cycle := CycleFor(fleet, d[i].0, d[i].1);
      DriveOneOutcome(cycle, command);
      GetAt(d, i);
      var (driven, error) := DriveOne(cycle, command);
      if error.None? {
        DriveKeepsAgreement(fleet[d[i].0 := driven], d, command, i + 1);
      }
    }
  }

  lemma {:induction false} GetAppends(d: Registry, id: string, plugin: Plugin, other: string)
    requires RegistryInv(d) && id == plugin.id && id !in Keys(d)
    ensures Get(d + [(id, plugin)], other) == if other == id then Some(plugin) else Get(d, other)
  {
    RegisterKeepsInv(d, plugin);
    PutGets(d, id, plugin, other);
  }

  lemma StepKeepsAgreement(e: Engine, event: Event)
    requires RegistryInv(e.registry) && Agree(e) && !event.Unregister?
    ensures Agree(Step(e, event))
  {
    match event
    case Register(plugin) =>
      GetFinds(e.registry, plugin.id);
      if Get(e.registry, plugin.id).None? {
        forall id | id in e.fleet
          ensures Get(e.registry + [(plugin.id, plugin)], id) == Some(e.fleet[id].plugin)
        {
          GetAppends(e.registry, plugin.id, plugin, id);
        }
      }
    case Command(command) =>
      DriveKeepsAgreement(e.fleet, e.registry, command, 0);
  }

  lemma {:induction false} AgreementWithoutUnregister(events: seq<Event>)
    requires forall event :: event in events ==> !event.Unregister?
    ensures Agree(Replay(events))
    decreases |events|
  {
    if events != [] {
      AgreementWithoutUnregister(events[..|events| - 1]);
      HistoryKeepsInv(events[..|events| - 1]);
      StepKeepsAgreement(Replay(events[..|events| - 1]), events[|events| - 1]);
    }
  }

  // ----- which plugin a command reaches -----

  /** A fleet command that returns normally leaves every registered identifier at its goal, and reaches
      the registered plugin itself exactly when no lifecycle of another plugin is cached there. */
  lemma {:induction false} ReachesRegisteredPlugin(fleet: Fleet, d: Registry, command: PluginFleets.Command, i: nat)
    requires RegistryInv(d) && i < |d| && Drive(fleet, d, command, 0).1.None?
    ensures var (id, plugin) := d[i];
      var after := Drive(fleet, d, command, 0).0;
      && id in after && after[id].life.state == Goal(command)
      && (after[id].plugin == plugin <==> (id in fleet ==> fleet[id].plugin == plugin))
  {
    var k := SomethingIsReached(fleet, d, command);
    DrivesPrefix(fleet, d, command, k);
    DriveReaches(fleet, d, command, 0, k, i);
    DriveOneOutcome(CycleFor(fleet, d[i].0, d[i].1), command);
  }

  /** The command comes to the plugin registered under `id`: it succeeds on all that stand before it. */
  ghost predicate Touches(e: Engine, command: PluginFleets.Command, id: string) {
    exists p: nat :: p < |e.registry| && TouchesAt(e, command, id, p)
  }

  ghost predicate TouchesAt(e: Engine, command: PluginFleets.Command, id: string, p: nat)
    requires p < |e.registry|
  {
    e.registry[p].0 == id
    && forall j :: 0 <= j < p ==> Succeeds(CycleFor(e.fleet, e.registry[j].0, e.registry[j].1), command)
  }

  lemma TouchedUpTo(e: Engine, command: PluginFleets.Command, id: string, k: nat)
    requires RegistryInv(e.registry) && Reaches(e.fleet, e.registry, command, 0, k)
    ensures Touches(e, command, id) <==> exists p: nat :: p < |e.registry| && p <= k && e.registry[p].0 == id
  {
    if p: nat :| p < |e.registry| && p <= k && e.registry[p].0 == id {
      assert TouchesAt(e, command, id, p);
    }
  }

  /** A command caches a lifecycle for exactly the identifiers it comes to, made for the plugin
      registered there; a cached lifecycle keeps its plugin. */
  lemma {:induction false} DriveCaches(e: Engine, command: PluginFleets.Command, id: string)
    requires RegistryInv(e.registry)
    ensures var after := Drive(e.fleet, e.registry, command, 0).0;
      && (id in after <==> id in e.fleet || Touches(e, command, id))
      && (id in e.fleet ==> after[id].plugin == e.fleet[id].plugin)
      && (id in after && id !in e.fleet ==> Get(e.registry, id) == Some(after[id].plugin))
  {
    var k := SomethingIsReached(e.fleet, e.registry, command);
    TouchedUpTo(e, command, id, k);
    if p: nat :| p < |e.registry| && p <= k && e.registry[p].0 == id {
      DriveReaches(e.fleet, e.registry, command, 0, k, p);
      DriveOneOutcome(CycleFor(e.fleet, e.registry[p].0, e.registry[p].1), command);
      GetAt(e.registry, p);
    } else {
      DriveLeaves(e.fleet, e.registry, command, 0, k, id);
    }
  }

  /** The plugin registered under `id` when a command first came to it. */
  ghost function FirstReached(events: seq<Event>, id: string): Option<Plugin>
    decreases |events|
  {
    if events == [] then None
    else
      var earlier, last := events[..|events| - 1], events[|events| - 1];
      if FirstReached(earlier, id).Some? then FirstReached(earlier, id)
      else if last.Command? && Touches(Replay(earlier), last.command, id) then Get(Replay(earlier).registry, id)
      else None
  }

  /** The cache remembers, for each identifier, the plugin a command first found there. */
  lemma {:induction false} CacheRemembersFirst(events: seq<Event>, id: string)
    ensures var fleet := Replay(events).fleet;
      FirstReached(events, id) == if id in fleet then Some(fleet[id].plugin) else None
    decreases |events|
  {
    if events != [] {
      var earlier, last := events[..|events| - 1], events[|events| - 1];
      CacheRemembersFirst(earlier, id);
      HistoryKeepsInv(earlier);
      if last.Command? {
        DriveCaches(Replay(earlier), last.command, id);
      }
    }
  }

  /** In every history, a fleet command that returns normally leaves every registered identifier at its
      goal; the registered plugin itself is there exactly when no command came to the identifier
      before, or the first that did found this plugin. Without unregistering that is always so. */
  lemma {:induction false} CommandReachesRegisteredPlugins(events: seq<Event>, command: PluginFleets.Command, i: nat)
    requires i < |Replay(events).registry|
    requires Drive(Replay(events).fleet, Replay(events).registry, command, 0).1.None?
    ensures var (id, plugin) := Replay(events).registry[i];
      var after := Drive(Replay(events).fleet, Replay(events).registry, command, 0).0;
      && id in after && after[id].life.state == Goal(command)
      && (after[id].plugin == plugin <==> FirstReached(events, id) in [None, Some(plugin)])
      && ((forall event :: event in events ==> !event.Unregister?) ==> after[id].plugin == plugin)
  {
    var e := Replay(events);
    HistoryKeepsInv(events);
    ReachesRegisteredPlugin(e.fleet, e.registry, command, i);
    CacheRemembersFirst(events, e.registry[i].0);
    if forall event :: event in events ==> !event.Unregister? {
      AgreementWithoutUnregister(events);
      GetAt(e.registry, i);
    }
  }

  const ALWAYS: nat -> bool := n => true

  const STARTED := [PluginLifecycles.Call(Initialize, true), PluginLifecycles.Call(Start, true)]

  const RESTED := STARTED + [PluginLifecycles.Call(Stop, true)]

  const AGAIN := RESTED + [PluginLifecycles.Call(Start, true)]

  lemma WorkingPlugin(plugin: Plugin)
    requires plugin.succeeds == ALWAYS
    ensures DriveOne(Cycle(plugin, FRESH), StartAll) == (Cycle(plugin, Life(Running, STARTED)), None)
    ensures DriveOne(Cycle(plugin, Life(Running, STARTED)), StopAll) == (Cycle(plugin, Life(Stopped, RESTED)), None)
    ensures DriveOne(Cycle(plugin, Life(Stopped, RESTED)), StartAll) == (Cycle(plugin, Life(Running, AGAIN)), None)
  {
    assert [] + [PluginLifecycles.Call(Initialize, true)] + [PluginLifecycles.Call(Start, true)] == STARTED;
  }

  lemma {:induction false} DriveSingle(fleet: Fleet, id: string, plugin: Plugin, command: PluginFleets.Command)
    ensures var (cycle, error) := DriveOne(CycleFor(fleet, id, plugin), command);
      Drive(fleet, [(id, plugin)], command, 0) == (fleet[id := cycle], error)
  {
  }

  lemma {:induction false} Extend(events: seq<Event>, event: Event)
    ensures Replay(events + [event]) == Step(Replay(events), event)
  {
    assert (events + [event])[..|events|] == events;
  }

  /** Register a plugin, start and stop it, and replace it by another under the same identifier. */
  function Replacing(first: Plugin, second: Plugin): seq<Event> {
    [Register(first)] + [Command(StartAll)] + [Command(StopAll)] + [Unregister(first.id)] + [Register(second)]
  }

  lemma AfterStop(first: Plugin)
    requires first.succeeds == ALWAYS
    ensures Replay([Register(first)] + [Command(StartAll)] + [Command(StopAll)])
         == Engine([(first.id, first)], map[first.id := Cycle(first, Life(Stopped, RESTED))])
  {
    var id := first.id;
    WorkingPlugin(first);
    Extend([], Register(first));
    assert [] + [Register(first)] == [Register(first)];
    assert EMPTY.registry + [(id, first)] == [(id, first)];
    Extend([Register(first)], Command(StartAll));
    DriveSingle(map[], id, first, StartAll);
    Extend([Register(first)] + [Command(StartAll)], Command(StopAll));
    DriveSingle(map[id := Cycle(first, Life(Running, STARTED))], id, first, StopAll);
    assert map[id := Cycle(first, Life(Running, STARTED))][id := Cycle(first, Life(Stopped, RESTED))]
        == map[id := Cycle(first, Life(Stopped, RESTED))];
  }

  /** After the replacement, starting the fleet returns normally but runs the old plugin: the
      registered one receives nothing. */
  lemma ReplacementIsNotStarted(first: Plugin, second: Plugin)
    requires first.id == second.id && first != second && first.succeeds == ALWAYS
    ensures var e := Replay(Replacing(first, second));
      && e.registry == [(second.id, second)]
      && Drive(e.fleet, e.registry, StartAll, 0)
         == (map[second.id := Cycle(first, Life(Running, AGAIN))], None)
  {
    var id := first.id;
    AfterStop(first);
    var stopped := [Register(first)] + [Command(StartAll)] + [Command(StopAll)];
    Extend(stopped, Unregister(id));
    Extend(stopped + [Unregister(id)], Register(second));
    WorkingPlugin(first);
    assert Remove([(id, first)], id) == [] && [] + [(id, second)] == [(id, second)];
    DriveSingle(map[id := Cycle(first, Life(Stopped, RESTED))], id, second, StartAll);
    assert map[id := Cycle(first, Life(Stopped, RESTED))][id := Cycle(first, Life(Running, AGAIN))]
        == map[id := Cycle(first, Life(Running, AGAIN))];
  }
}

/** The engine as an object: a registry and a cache of lifecycle objects. */
module AIEngines {
  import opened Kernel
  import opened OrderedDict
  import opened PluginLifecycles
  import opened PluginRegistries
  import opened PluginFleets

  lemma DriveStep(fleet: Fleet, d: Registry, command: Command, i: nat, after: Fleet, error: Option<Error>)
    requires i < |d| && d[i].0 in after
    requires (after[d[i].0], error) == DriveOne(CycleFor(fleet, d[i].0, d[i].1), command)
    requires after == fleet[d[i].0 := after[d[i].0]]
    ensures Drive(fleet, d, command, i) == if error.Some? then (after, error) else Drive(after, d, command, i + 1)
  {
  }

  class AIEngine {
    const registry: PluginRegistry
    var lifecycles: map<string, PluginLifecycle>
    /** The lifecycle objects this engine made. */
    ghost var made: set<PluginLifecycle>

    /** No lifecycle object serves two identifiers. */
    ghost predicate Valid()
      reads this, registry
    {
      && RegistryInv(registry.plugins)
      && (forall id :: id in lifecycles ==> lifecycles[id] in made)
      && forall a, b :: a in lifecycles && b in lifecycles && a != b ==> lifecycles[a] != lifecycles[b]
    }

    ghost function Fleet(): Fleet
      requires forall id :: id in lifecycles ==> lifecycles[id] in made
      reads this, made
    {
      map id | id in lifecycles :: Cycle(lifecycles[id].plugin, lifecycles[id].View())
    }

    constructor (registry: PluginRegistry)
      requires registry.Valid()
      ensures Valid() && this.registry == registry && Fleet() == map[]
    {
      this.registry := registry;
      this.lifecycles := map[];
      this.made := {};
    }

    method LifecycleFor(id: string) returns (lifecycle: PluginLifecycle)
      requires Valid() && id in Keys(registry.plugins)
      modifies this`lifecycles, this`made
      ensures Valid() && made == old(made) + {lifecycle} && Get(registry.plugins, id).Some?
      ensures lifecycles == old(lifecycles)[id := lifecycle]
      ensures if id in old(lifecycles) then lifecycle == old(lifecycles)[id]
              else fresh(lifecycle) && lifecycle.plugin == Get(registry.plugins, id).value && lifecycle.View() == FRESH
    {
      GetFinds(registry.plugins, id);
      if id !in lifecycles {
        var plugin := registry.Lookup(id);
        var created := new PluginLifecycle(plugin.value);
        lifecycles := lifecycles[id := created];
        made := made + {created};
      }
      lifecycle := lifecycles[id];
    }

    /** The cycle of `id`, made afresh from `plugin` if there is none. */
    ghost function CycleOf(id: string, plugin: Plugin): Cycle
      requires id in lifecycles ==> lifecycles[id] in made
      reads this, made
    {
      if id in lifecycles then Cycle(lifecycles[id].plugin, lifecycles[id].View()) else Cycle(plugin, FRESH)
    }

    /** One command on one plugin; the other lifecycles stay. */
    method DriveOnePlugin(id: string, command: Command) returns (error: Option<Error>)
      requires Valid() && id in Keys(registry.plugins)
      modifies this, made
      ensures Valid() && id in lifecycles && Get(registry.plugins, id).Some?
      ensures lifecycles == old(lifecycles)[id := lifecycles[id]]
      ensures fresh(made - old(made))
      ensures var plugin := Get(registry.plugins, id).value;
        (CycleOf(id, plugin), error) == DriveOne(old(CycleOf(id, plugin)), command)
      ensures forall other :: other in old(lifecycles) && other != id ==>
                old(lifecycles)[other].View() == old(lifecycles[other].View())
    {
      var lifecycle := LifecycleFor(id);
      error := DriveLifecycle(lifecycle, command);
    }

    twostate lemma FleetUpdated(id: string)
      requires old(Valid()) && Valid() && id in lifecycles && lifecycles == old(lifecycles)[id := lifecycles[id]]
      requires forall other :: other in old(lifecycles) && other != id ==>
                 old(lifecycles)[other].View() == old(lifecycles[other].View())
      ensures Fleet() == old(Fleet())[id := Fleet()[id]]
    {
    }

    static method DriveLifecycle(lifecycle: PluginLifecycle, command: Command) returns (error: Option<Error>)
      modifies lifecycle
      ensures (Cycle(lifecycle.plugin, lifecycle.View()), error)
           == DriveOne(Cycle(lifecycle.plugin, old(lifecycle.View())), command)
    {
      match command
      case StartAll =>
        if lifecycle.state == Registered {
          error := lifecycle.Initialize();
          if error.Some? {
            return;
          }
        }
        error := lifecycle.Start();
      case StopAll =>
        error := lifecycle.Stop();
      case DisposeAll =>
        error := lifecycle.Dispose();
    }

    /** The loop body: one plugin of the enumeration. */
    method Advance(i: nat, command: Command) returns (error: Option<Error>)
      requires Valid() && i < |registry.plugins|
      modifies this, made
      ensures Valid()
      ensures fresh(made - old(made))
      ensures Drive(old(Fleet()), registry.plugins, command, i)
           == if error.Some? then (Fleet(), error) else Drive(Fleet(), registry.plugins, command, i + 1)
    {
      var ids := registry.Enumerate();
      GetAt(registry.plugins, i);
      error := DriveOnePlugin(ids[i], command);
      FleetUpdated(ids[i]);
      DriveStep(old(Fleet()), registry.plugins, command, i, Fleet(), error);
    }

    method DrivePlugins(command: Command) returns (error: Option<Error>)
      requires Valid()
      modifies this, made
      ensures Valid() && fresh(made - old(made))
      ensures (Fleet(), error) == Drive(old(Fleet()), registry.plugins, command, 0)
    {
      for i := 0 to |registry.plugins|
        invariant Valid()
        invariant fresh(made - old(made))
        invariant Drive(Fleet(), registry.plugins, command, i) == Drive(old(Fleet()), registry.plugins, command, 0)
      {
        error := Advance(i, command);
        if error.Some? {
          return;
        }
      }
      return None;
    }

    method StartPlugins() returns (error: Option<Error>)
      requires Valid()
      modifies this, made
      ensures Valid() && fresh(made - old(made))
      ensures (Fleet(), error) == Drive(old(Fleet()), registry.plugins, StartAll, 0)
    {
      error := DrivePlugins(StartAll);
    }

    method StopPlugins() returns (error: Option<Error>)
      requires Valid()
      modifies this, made
      ensures Valid() && fresh(made - old(made))
      ensures (Fleet(), error) == Drive(old(Fleet()), registry.plugins, StopAll, 0)
    {
      error := DrivePlugins(StopAll);
    }

    method DisposePlugins() returns (error: Option<Error>)
      requires Valid()
      modifies this, made
      ensures Valid() && fresh(made - old(made))
      ensures (Fleet(), error) == Drive(old(Fleet()), registry.plugins, DisposeAll, 0)
    {
      error := DrivePlugins(DisposeAll);
    }
  }
}
