/** The plugin registry: registration, lazy factories, initialization, shutdown and removal of plugins. */
module CollectorRegistries {

  datatype Event = Initialized | ShutDown

  /** A plugin as the registry drives it: its successful initializations and its shutdowns, in order. */
  datatype Plugin = Plugin(events: seq<Event>)

  /** What a factory yields when called. */
  datatype Made = Nothing | Unavailable | Usable

  /** `dropped` is history: the plugins the registry has destroyed. */
  datatype Registry = Registry(plugins: map<string, Plugin>, factories: set<string>, initialized: map<string, bool>,
                               shutdown: bool, dropped: seq<Plugin>)

  const EMPTY: Registry := Registry(map[], {}, map[], false, [])

  const NEW_PLUGIN: Plugin := Plugin([])

  function Yield(made: map<string, Made>, name: string): Made {
    if name in made then made[name] else Nothing
  }

  function Enter(r: Registry, name: string): Registry {
    if name in r.plugins then r
    else r.(plugins := r.plugins[name := NEW_PLUGIN], initialized := r.initialized[name := false])
  }

  function IsInitialized(r: Registry, name: string): bool {
    name in r.initialized && r.initialized[name]
  }

  function Instantiate(r: Registry, name: string, made: map<string, Made>): Registry {
    if name !in r.plugins && name in r.factories && Yield(made, name).Usable?
    then Enter(r, name).(factories := r.factories - {name}) else r
  }

  /** The given factories' plugins entered. */
  function EnterAll(r: Registry, names: set<string>): Registry {
    r.(plugins := r.plugins + Constant(names, NEW_PLUGIN),
       initialized := r.initialized + Constant(names, false),
       factories := r.factories - names)
  }

  function Constant<V>(names: set<string>, v: V): map<string, V> {
    map n | n in names :: v
  }

  lemma ConstantOneMore<V>(m: map<string, V>, names: set<string>, name: string, v: V)
    ensures (m + Constant(names, v))[name := v] == m + Constant(names + {name}, v)
  {
  }

  function UsableFactories(r: Registry, made: map<string, Made>): set<string> {
    set n | n in r.factories && n !in r.plugins && Yield(made, n).Usable?
  }

  /** All factories called, over a snapshot of their names. */
  function InstantiateAll(r: Registry, made: map<string, Made>): Registry {
    EnterAll(r, UsableFactories(r, made))
  }

  lemma InstantiateOne(r: Registry, made: map<string, Made>, done: set<string>, name: string)
    requires done <= UsableFactories(r, made) && name in r.factories && name !in done
    ensures Instantiate(EnterAll(r, done), name, made)
         == EnterAll(r, if name in UsableFactories(r, made) then done + {name} else done)
  {
    if name in UsableFactories(r, made) {
      ConstantOneMore(r.plugins, done, name, NEW_PLUGIN);
      ConstantOneMore(r.initialized, done, name, false);
      assert r.factories - done - {name} == r.factories - (done + {name});
    }
  }

  /** The plugins in `tried` initialized, where they are not and succeed. */
  function InitializeSome(s: Registry, succeeds: set<string>, tried: set<string>): Registry {
    s.(plugins := map n | n in s.plugins ::
                    if n in tried && !IsInitialized(s, n) && n in succeeds
                    then Plugin(s.plugins[n].events + [Initialized]) else s.plugins[n],
       initialized := map n | n in s.initialized :: s.initialized[n] || (n in tried && n in succeeds))
  }

  /** succeeds: the plugins whose initialization succeeds when tried. */
  function InitializeAll(r: Registry, made: map<string, Made>, succeeds: set<string>): Registry {
    var s := InstantiateAll(r, made);
    InitializeSome(s, succeeds, s.plugins.Keys)
  }

  function InitializeOne(r: Registry, succeeds: set<string>, name: string): Registry
    requires name in r.plugins
  {
    if IsInitialized(r, name) || name !in succeeds then r
    else r.(plugins := r.plugins[name := Plugin(r.plugins[name].events + [Initialized])],
            initialized := r.initialized[name := true])
  }

  lemma InitializeNextPlugins(s: Registry, succeeds: set<string>, tried: set<string>, name: string)
    requires s.plugins.Keys == s.initialized.Keys && name in s.plugins && name !in tried
    ensures InitializeOne(InitializeSome(s, succeeds, tried), succeeds, name).plugins
         == InitializeSome(s, succeeds, tried + {name}).plugins
  {
  }

  lemma InitializeNextFlags(s: Registry, succeeds: set<string>, tried: set<string>, name: string)
    requires s.plugins.Keys == s.initialized.Keys && name in s.plugins && name !in tried
    ensures InitializeOne(InitializeSome(s, succeeds, tried), succeeds, name).initialized
         == InitializeSome(s, succeeds, tried + {name}).initialized
  {
  }

  lemma InitializeNext(s: Registry, succeeds: set<string>, tried: set<string>, name: string)
    requires s.plugins.Keys == s.initialized.Keys && name in s.plugins && name !in tried
    ensures InitializeOne(InitializeSome(s, succeeds, tried), succeeds, name)
         == InitializeSome(s, succeeds, tried + {name})
  {
    InitializeNextPlugins(s, succeeds, tried, name);
    InitializeNextFlags(s, succeeds, tried, name);
  }

  function Stopped(r: Registry, name: string): Plugin
    requires name in r.plugins
  {
    if IsInitialized(r, name) then Plugin(r.plugins[name].events + [ShutDown]) else r.plugins[name]
  }

  /** The given plugins stopped, where they run. */
  function StopSome(r: Registry, names: set<string>): Registry {
    r.(plugins := map n | n in r.plugins :: if n in names then Stopped(r, n) else r.plugins[n],
       initialized := map n | n in r.initialized :: n !in names && r.initialized[n])
  }

  function ShutdownAll(r: Registry): Registry {
    if r.shutdown then r
    else r.(plugins := map n | n in r.plugins :: Stopped(r, n),
            initialized := map n | n in r.initialized :: false,
            shutdown := true)
  }

  lemma StopNone(r: Registry)
    ensures StopSome(r, r.plugins.Keys - r.plugins.Keys) == r
  {
    assert StopSome(r, r.plugins.Keys - r.plugins.Keys).plugins == r.plugins;
    assert StopSome(r, r.plugins.Keys - r.plugins.Keys).initialized == r.initialized;
  }

  /** One turn of the shutdown loop. */
  lemma StopNext(r: Registry, todo: set<string>, name: string)
    requires r.plugins.Keys == r.initialized.Keys && name in todo && todo <= r.plugins.Keys
    ensures var s, s' := StopSome(r, r.plugins.Keys - todo), StopSome(r, r.plugins.Keys - (todo - {name}));
            s' == s.(plugins := s.plugins[name := Stopped(s, name)], initialized := s.initialized[name := false])
  {
    var s, s' := StopSome(r, r.plugins.Keys - todo), StopSome(r, r.plugins.Keys - (todo - {name}));
    assert Stopped(s, name) == Stopped(r, name);
    assert s'.plugins == s.plugins[name := Stopped(s, name)];
    assert s'.initialized == s.initialized[name := false];
  }

  lemma StopEach(r: Registry)
    requires r.plugins.Keys == r.initialized.Keys && !r.shutdown
    ensures ShutdownAll(r) == StopSome(r, r.plugins.Keys).(shutdown := true)
  {
    assert ShutdownAll(r).plugins == StopSome(r, r.plugins.Keys).plugins;
    assert ShutdownAll(r).initialized == StopSome(r, r.plugins.Keys).initialized;
  }

  lemma PutThenDrop<V>(m: map<string, V>, k: string, v: V)
    ensures m[k := v] - {k} == m - {k}
  {
  }

  function Unregister(r: Registry, name: string): Registry {
    if name !in r.plugins then r
    else r.(plugins := r.plugins - {name}, initialized := r.initialized - {name},
            dropped := r.dropped + [Stopped(r, name)])
  }

  /** Clearing shuts down, then destroys all plugins; drops lists them in the order they are destroyed. */
  ghost predicate Clears(r: Registry, r': Registry, drops: seq<string>) {
    var s := ShutdownAll(r);
    && (forall n :: n in drops <==> n in s.plugins)
    && (forall i, j :: 0 <= i < j < |drops| ==> drops[i] != drops[j])
    && r' == EMPTY.(dropped := r.dropped + PluginsOf(s.plugins, drops))
  }

  function PluginsOf(plugins: map<string, Plugin>, names: seq<string>): (r: seq<Plugin>)
    requires forall n :: n in names ==> n in plugins
    ensures |r| == |names|
  {
    seq(|names|, i requires 0 <= i < |names| => plugins[names[i]])
  }

  function InitializedPlugins(r: Registry): set<string> {
    set n | n in r.plugins && IsInitialized(r, n)
  }

  lemma InitializedSetAfterOne(r: Registry, succeeds: set<string>, name: string)
    requires name in r.plugins
    ensures var r' := InitializeOne(r, succeeds, name);
            InitializedPlugins(r') == InitializedPlugins(r) + if IsInitialized(r', name) then {name} else {}
  {
  }

  /** Before the first turn nothing is tried or counted. */
  lemma InitializeNone(s: Registry, succeeds: set<string>)
    ensures InitializeSome(s, succeeds, s.plugins.Keys - s.plugins.Keys) == s
    ensures |InitializedPlugins(s) - s.plugins.Keys| == 0
  {
    assert InitializeSome(s, succeeds, s.plugins.Keys - s.plugins.Keys).plugins == s.plugins;
    assert InitializedPlugins(s) - s.plugins.Keys == {};
  }

  /** After the last turn all are tried and counted. */
  lemma InitializeDone(s: Registry, succeeds: set<string>, todo: set<string>, r: Registry)
    requires todo == {} && r == InitializeSome(s, succeeds, s.plugins.Keys - todo)
    ensures r == InitializeSome(s, succeeds, s.plugins.Keys)
    ensures |InitializedPlugins(r) - todo| == |InitializedPlugins(r)|
  {
    assert s.plugins.Keys - todo == s.plugins.Keys;
    assert InitializedPlugins(r) - todo == InitializedPlugins(r);
  }

  /** One turn of the initialization loop. */
  lemma InitializeTurn(s: Registry, succeeds: set<string>, todo: set<string>, name: string, r: Registry, r': Registry)
    requires s.plugins.Keys == s.initialized.Keys && name in todo && todo <= s.plugins.Keys
    requires r == InitializeSome(s, succeeds, s.plugins.Keys - todo) && r' == InitializeOne(r, succeeds, name)
    ensures r' == InitializeSome(s, succeeds, s.plugins.Keys - (todo - {name}))
    ensures |InitializedPlugins(r') - (todo - {name})|
         == |InitializedPlugins(r) - todo| + if IsInitialized(r', name) then 1 else 0
  {
    InitializeNext(s, succeeds, s.plugins.Keys - todo, name);
    assert s.plugins.Keys - todo + {name} == s.plugins.Keys - (todo - {name});
    InitializedSetAfterOne(r, succeeds, name);
    CountOneMore(InitializedPlugins(r), InitializedPlugins(r'), todo, name, IsInitialized(r', name));
  }

  lemma CountOneMore(on: set<string>, on': set<string>, todo: set<string>, name: string, more: bool)
    requires name in todo && on' == on + (if more then {name} else {}) && (!more ==> name !in on)
    ensures |on' - (todo - {name})| == |on - todo| + if more then 1 else 0
  {
    if more {
      assert on' - (todo - {name}) == (on - todo) + {name};
    } else {
      assert on' - (todo - {name}) == on - todo;
    }
  }

  // ---------- the registry as an object ----------

  class CollectorRegistry {
    var plugins: map<string, Plugin>
    var factories: set<string>
    var initialized: map<string, bool>
    var shutdown: bool
    ghost var dropped: seq<Plugin>

    constructor ()
      ensures Abs() == EMPTY
    {
      plugins, factories, initialized, shutdown, dropped := map[], {}, map[], false, [];
    }

    ghost function Abs(): Registry
      reads this
    {
      Registry(plugins, factories, initialized, shutdown, dropped)
    }

    method RegisterPlugin(name: string, available: bool) returns (ok: bool)
      modifies this`plugins, this`initialized
      ensures ok <==> available && name !in old(plugins)
      ensures Abs() == if available then Enter(old(Abs()), name) else old(Abs())
    {
      if !available {
        return false;
      }
      if name in plugins {
        return false;
      }
      plugins := plugins[name := NEW_PLUGIN];
      initialized := initialized[name := false];
      return true;
    }

    method RegisterFactory(name: string)
      modifies this`factories
      ensures Abs() == old(Abs()).(factories := old(factories) + {name})
    {
      factories := factories + {name};
    }

    method StopIfRunning(name: string)
      requires name in plugins && name in initialized
      modifies this`plugins, this`initialized
      ensures plugins == old(plugins)[name := Stopped(old(Abs()), name)]
      ensures initialized == old(initialized)[name := false]
    {
      if initialized[name] {
        plugins := plugins[name := Plugin(plugins[name].events + [ShutDown])];
        initialized := initialized[name := false];
      }
    }

    method UnregisterPlugin(name: string) returns (found: bool)
      requires plugins.Keys == initialized.Keys
      modifies this
      ensures found <==> name in old(plugins)
      ensures Abs() == Unregister(old(Abs()), name)
    {
      if name !in plugins {
        return false;
      }
      PutThenDrop(plugins, name, Stopped(Abs(), name));
      PutThenDrop(initialized, name, false);
      StopIfRunning(name);
      dropped := dropped + [plugins[name]];
      plugins := plugins - {name};
      initialized := initialized - {name};
      return true;
    }

    method InstantiateFromFactory(name: string, made: map<string, Made>) returns (present: bool)
      modifies this`plugins, this`initialized, this`factories
      ensures present <==> name in plugins
      ensures Abs() == Instantiate(old(Abs()), name, made)
    {
      if name in plugins {
        return true;
      }
      if name !in factories {
        return false;
      }
      if !Yield(made, name).Usable? {
        return false;
      }
      plugins := plugins[name := NEW_PLUGIN];
      initialized := initialized[name := false];
      factories := factories - {name};
      return true;
    }

    method InstantiateFactories(made: map<string, Made>)
      modifies this`plugins, this`initialized, this`factories
      ensures Abs() == InstantiateAll(old(Abs()), made)
    {
      var todo := factories;
      ghost var r := Abs();
      ghost var usable := UsableFactories(r, made);
      assert EnterAll(r, usable - todo) == r;
      while todo != {}
        invariant todo <= r.factories && Abs() == EnterAll(r, usable - todo)
      {
        var name :| name in todo;
        InstantiateOne(r, made, usable - todo, name);
        assert usable - (todo - {name}) == if name in usable then usable - todo + {name} else usable - todo;
        todo := todo - {name};
        var _ := InstantiateFromFactory(name, made);
      }
      assert usable - todo == usable;
    }

    method TryInitialize(name: string, succeeds: set<string>) returns (on: bool)
      requires name in plugins && name in initialized
      modifies this`plugins, this`initialized
      ensures Abs() == InitializeOne(old(Abs()), succeeds, name)
      ensures on == IsInitialized(Abs(), name)
    {
      if initialized[name] {
        return true;
      }
      if name in succeeds {
        plugins := plugins[name := Plugin(plugins[name].events + [Initialized])];
        initialized := initialized[name := true];
        return true;
      }
      return false;
    }

    method Initialize(made: map<string, Made>, succeeds: set<string>) returns (count: nat)
      requires plugins.Keys == initialized.Keys
      modifies this`plugins, this`initialized, this`factories
      ensures Abs() == InitializeAll(old(Abs()), made, succeeds)
      ensures count == |InitializedPlugins(Abs())|
    {
      InstantiateFactories(made);
      count := InitializePlugins(succeeds);
    }

    method InitializePlugins(succeeds: set<string>) returns (count: nat)
      requires plugins.Keys == initialized.Keys
      modifies this`plugins, this`initialized
      ensures Abs() == InitializeSome(old(Abs()), succeeds, old(plugins).Keys)
      ensures count == |InitializedPlugins(Abs())|
    {
      ghost var s := Abs();
      count := 0;
      var todo := plugins.Keys;
      InitializeNone(s, succeeds);
      while todo != {}
        invariant todo <= s.plugins.Keys && plugins.Keys == initialized.Keys == s.plugins.Keys
        invariant Abs() == InitializeSome(s, succeeds, s.plugins.Keys - todo)
        invariant count == |InitializedPlugins(Abs()) - todo|
      {
        var name :| name in todo;
        InitializeTurn(s, succeeds, todo, name, Abs(), InitializeOne(Abs(), succeeds, name));
        todo := todo - {name};
        var on := TryInitialize(name, succeeds);
        if on {
          count := count + 1;
        }
      }
      InitializeDone(s, succeeds, todo, Abs());
    }

    method Shutdown()
      requires plugins.Keys == initialized.Keys
      modifies this`plugins, this`initialized, this`shutdown
      ensures Abs() == ShutdownAll(old(Abs()))
    {
      if shutdown {
        return;
      }
      StopEach(Abs());
      StopAll();
      shutdown := true;
    }

    method StopAll()
      requires plugins.Keys == initialized.Keys
      modifies this`plugins, this`initialized
      ensures Abs() == StopSome(old(Abs()), old(plugins).Keys)
    {
      ghost var r := Abs();
      StopNone(r);
      var todo := plugins.Keys;
      while todo != {}
        invariant todo <= r.plugins.Keys == plugins.Keys == initialized.Keys
        invariant Abs() == StopSome(r, r.plugins.Keys - todo)
      {
        var name :| name in todo;
        StopNext(r, todo, name);
        todo := todo - {name};
        StopIfRunning(name);
      }
      assert r.plugins.Keys - todo == r.plugins.Keys;
    }

    method Clear() returns (ghost drops: seq<string>)
      requires plugins.Keys == initialized.Keys
      modifies this
      ensures Clears(old(Abs()), Abs(), drops)
    {
      Shutdown();
      drops := Listing(plugins.Keys);
      dropped := dropped + PluginsOf(plugins, drops);
      plugins, factories, initialized := map[], {}, map[];
      shutdown := false;
    }
  }

  ghost function Listing(names: set<string>): (r: seq<string>)
    ensures forall n :: n in r <==> n in names
    ensures forall i, j :: 0 <= i < j < |r| ==> r[i] != r[j]
  {
    if names == {} then []
    else
      var n :| n in names;
      [n] + Listing(names - {n})
  }

  // ---------- runs ----------

  datatype Op =
    | OpRegister(name: string, available: bool)  // also a plugin from a library, which is always taken as available
    | OpFactory(name: string)
    | OpUnregister(name: string)
    | OpGet(name: string, made: map<string, Made>)
    | OpGetAll(made: map<string, Made>)
    | OpInitialize(made: map<string, Made>, succeeds: set<string>)
    | OpShutdown
    | OpClear

  ghost predicate Step(r: Registry, op: Op, r': Registry) {
    match op
    case OpRegister(name, available) => r' == if available then Enter(r, name) else r
    case OpFactory(name) => r' == r.(factories := r.factories + {name})
    case OpUnregister(name) => r' == Unregister(r, name)
    case OpGet(name, made) => r' == Instantiate(r, name, made)
    case OpGetAll(made) => r' == InstantiateAll(r, made)
    case OpInitialize(made, succeeds) => r' == InitializeAll(r, made, succeeds)
    case OpShutdown => r' == ShutdownAll(r)
    case OpClear => exists drops :: Clears(r, r', drops)
  }

  ghost predicate Run(states: seq<Registry>, ops: seq<Op>) {
    && |states| == |ops| + 1 && states[0] == EMPTY
    && forall i :: 0 <= i < |ops| ==> Step(states[i], ops[i], states[i + 1])
  }

  // ---------- lifecycles ----------

  /** Initialized, shut down, initialized, ... */
  ghost predicate Alternates(p: Plugin) {
    forall i :: 0 <= i < |p.events| ==> p.events[i] == if i % 2 == 0 then Initialized else ShutDown
  }

  predicate Running(p: Plugin) {
    |p.events| % 2 == 1
  }

  ghost predicate Consistent(r: Registry) {
    && r.plugins.Keys == r.initialized.Keys
    && (forall n :: n in r.plugins ==> Alternates(r.plugins[n]) && (r.initialized[n] <==> Running(r.plugins[n])))
    && (forall p :: p in r.dropped ==> Alternates(p))
  }

  lemma StoppedAlternates(r: Registry, name: string)
    requires Consistent(r) && name in r.plugins
    ensures Alternates(Stopped(r, name)) && !Running(Stopped(r, name))
  {
  }

  lemma StepConsistent(r: Registry, op: Op, r': Registry)
    requires Consistent(r) && Step(r, op, r')
    ensures Consistent(r')
  {
    match op {
      case OpUnregister(name) => UnregisterConsistent(r, name);
      case OpGetAll(made) => InstantiateConsistent(r, made);
      case OpInitialize(made, succeeds) => InitializeConsistent(r, made, succeeds);
      case OpShutdown => ShutdownConsistent(r);
      case OpClear =>
        ShutdownConsistent(r);
        var drops :| Clears(r, r', drops);
      case _ =>
    }
  }

  lemma UnregisterConsistent(r: Registry, name: string)
    requires Consistent(r)
    ensures Consistent(Unregister(r, name))
  {
    if name in r.plugins {
      StoppedAlternates(r, name);
    }
  }

  lemma ShutdownConsistent(r: Registry)
    requires Consistent(r)
    ensures Consistent(ShutdownAll(r))
  {
    forall n | n in r.plugins ensures Alternates(Stopped(r, n)) && !Running(Stopped(r, n)) {
      StoppedAlternates(r, n);
    }
  }

  lemma InstantiateConsistent(r: Registry, made: map<string, Made>)
    requires Consistent(r)
    ensures Consistent(InstantiateAll(r, made))
  {
  }

  lemma InitializedAlternates(p: Plugin)
    requires Alternates(p) && !Running(p)
    ensures Alternates(Plugin(p.events + [Initialized])) && Running(Plugin(p.events + [Initialized]))
  {
  }

  lemma InitializeConsistent(r: Registry, made: map<string, Made>, succeeds: set<string>)
    requires Consistent(r)
    ensures Consistent(InitializeAll(r, made, succeeds))
  {
    InstantiateConsistent(r, made);
    InitializeSomeConsistent(InstantiateAll(r, made), succeeds, InstantiateAll(r, made).plugins.Keys);
  }

  lemma InitializeSomeConsistent(s: Registry, succeeds: set<string>, tried: set<string>)
    requires Consistent(s) && tried == s.plugins.Keys
    ensures Consistent(InitializeSome(s, succeeds, tried))
  {
    var r' := InitializeSome(s, succeeds, tried);
    assert r'.plugins.Keys == s.plugins.Keys && r'.initialized.Keys == s.initialized.Keys;
    forall n | n in r'.plugins
      ensures Alternates(r'.plugins[n]) && (r'.initialized[n] <==> Running(r'.plugins[n]))
    {
      if !s.initialized[n] {
        InitializedAlternates(s.plugins[n]);
      }
    }
  }

  /**
    In every reachable state the two maps have the same keys, every plugin (stored or destroyed) has been
    initialized and shut down in strict alternation, and the flag says whether it is running.
   */
  lemma {:induction false} LifecyclesAlternate(states: seq<Registry>, ops: seq<Op>, n: nat)
    requires Run(states, ops) && n <= |ops|
    ensures Consistent(states[n])
  {
    if n == 0 {
    } else {
      LifecyclesAlternate(states, ops, n - 1);
      StepConsistent(states[n - 1], ops[n - 1], states[n]);
    }
  }

  // ---------- nothing is destroyed while running ----------

  /** What clearing destroys, one by one. */
  lemma ClearedAt(r: Registry, r': Registry, drops: seq<string>, i: nat)
    requires Clears(r, r', drops) && i < |drops|
    ensures |r'.dropped| == |r.dropped| + |drops| && drops[i] in r.plugins
    ensures r'.dropped[|r.dropped| + i] == ShutdownAll(r).plugins[drops[i]]
  {
    assert drops[i] in drops;
  }

  lemma RunningAfterShutdown(r: Registry, n: string)
    requires Consistent(r) && n in r.plugins
    ensures n in ShutdownAll(r).plugins && (Running(ShutdownAll(r).plugins[n]) <==> r.shutdown && r.initialized[n])
  {
    StoppedAlternates(r, n);
  }

  lemma ClearedCount(r: Registry, r': Registry, drops: seq<string>)
    requires Clears(r, r', drops)
    ensures |r'.dropped| == |r.dropped| + |drops|
  {
  }

  lemma ClearStops(r: Registry, r': Registry, drops: seq<string>)
    requires Consistent(r) && Clears(r, r', drops) && StopsCleanly(r)
    ensures forall i :: |r.dropped| <= i < |r'.dropped| ==> !Running(r'.dropped[i])
  {
    ClearedCount(r, r', drops);
    forall i | |r.dropped| <= i < |r'.dropped| ensures !Running(r'.dropped[i]) {
      var k := i - |r.dropped|;
      ClearedAt(r, r', drops, k);
      RunningAfterShutdown(r, drops[k]);
    }
  }

  lemma ClearDestroysRunning(r: Registry, r': Registry, drops: seq<string>) returns (at: nat)
    requires Consistent(r) && Clears(r, r', drops) && !StopsCleanly(r)
    ensures |r.dropped| <= at < |r'.dropped| && Running(r'.dropped[at])
  {
    var n :| n in r.plugins && r.initialized[n];
    assert n in drops;
    var i :| 0 <= i < |drops| && drops[i] == n;
    ClearedAt(r, r', drops, i);
    RunningAfterShutdown(r, n);
    at := |r.dropped| + i;
  }

  /** The registry was not already shut down, or no plugin runs. */
  ghost predicate StopsCleanly(r: Registry) {
    !r.shutdown || forall n :: n in r.plugins && n in r.initialized ==> !r.initialized[n]
  }

  /** Clearing destroys no running plugin exactly when the registry was not already shut down, or none runs. */
  lemma ClearStopsAllIff(r: Registry, r': Registry, drops: seq<string>)
    requires Consistent(r) && Clears(r, r', drops)
    ensures (forall i :: |r.dropped| <= i < |r'.dropped| ==> !Running(r'.dropped[i])) <==> StopsCleanly(r)
  {
    if StopsCleanly(r) {
      ClearStops(r, r', drops);
    } else {
      var at := ClearDestroysRunning(r, r', drops);
    }
  }

  ghost predicate NothingRuns(r: Registry) {
    r.shutdown ==> forall n :: n in r.initialized ==> !r.initialized[n]
  }

  ghost predicate DroppedStopped(r: Registry) {
    forall p :: p in r.dropped ==> !Running(p)
  }

  lemma StepStops(r: Registry, op: Op, r': Registry)
    requires Consistent(r) && Step(r, op, r') && (op.OpInitialize? ==> !r.shutdown)
    requires NothingRuns(r) && DroppedStopped(r)
    ensures NothingRuns(r') && DroppedStopped(r')
  {
    match op {
      case OpUnregister(name) =>
        if name in r.plugins {
          StoppedAlternates(r, name);
        }
      case OpClear =>
        var drops :| Clears(r, r', drops);
        ClearStopsAllIff(r, r', drops);
        forall p | p in r'.dropped ensures !Running(p) {
          var i :| 0 <= i < |r'.dropped| && r'.dropped[i] == p;
          assert i < |r.dropped| ==> p in r.dropped;
        }
      case _ =>
    }
  }

  /** When nothing is initialized between a shutdown and the next clear, no plugin is destroyed while running. */
  lemma {:induction false} NeverDestroyedRunning(states: seq<Registry>, ops: seq<Op>, n: nat)
    requires Run(states, ops) && n <= |ops|
    requires forall i :: 0 <= i < n && ops[i].OpInitialize? ==> !states[i].shutdown
    ensures NothingRuns(states[n]) && DroppedStopped(states[n])
  {
    if n == 0 {
    } else {
      NeverDestroyedRunning(states, ops, n - 1);
      LifecyclesAlternate(states, ops, n - 1);
      StepStops(states[n - 1], ops[n - 1], states[n]);
    }
  }

  lemma ClearDrops(r: Registry, r': Registry)
    requires Consistent(r) && Step(r, OpClear, r') && DroppedStopped(r)
    ensures DroppedStopped(r') <==> StopsCleanly(r)
  {
    var drops :| Clears(r, r', drops);
    ClearStopsAllIff(r, r', drops);
    assert r'.dropped[..|r.dropped|] == r.dropped;
    if StopsCleanly(r) {
      forall p | p in r'.dropped ensures !Running(p) {
        var i :| 0 <= i < |r'.dropped| && r'.dropped[i] == p;
        assert i < |r.dropped| ==> r.dropped[i] in r.dropped;
      }
    } else {
      var at := ClearDestroysRunning(r, r', drops);
      assert r'.dropped[at] in r'.dropped;
    }
  }

  lemma OnlyGrows(r: Registry, op: Op, r': Registry)
    requires Step(r, op, r')
    ensures DroppedStopped(r') ==> DroppedStopped(r)
  {
    if op.OpClear? {
      var drops :| Clears(r, r', drops);
    }
    assert forall p :: p in r.dropped ==> p in r'.dropped;
  }

  lemma StepDrops(r: Registry, op: Op, r': Registry)
    requires Consistent(r) && Step(r, op, r') && DroppedStopped(r)
    ensures DroppedStopped(r') <==> (op.OpClear? ==> StopsCleanly(r))
  {
    if op.OpClear? {
      ClearDrops(r, r');
    } else if op.OpUnregister? && op.name in r.plugins {
      StoppedAlternates(r, op.name);
    }
  }

  /**
    Over any run, no plugin was destroyed while running if and only if every clear met a registry that was
    not already shut down, or had no running plugin.
   */
  lemma {:induction false} NeverDestroyedRunningIff(states: seq<Registry>, ops: seq<Op>, n: nat)
    requires Run(states, ops) && n <= |ops|
    ensures DroppedStopped(states[n]) <==> forall i :: 0 <= i < n && ops[i].OpClear? ==> StopsCleanly(states[i])
  {
    if n == 0 {
    } else {
      NeverDestroyedRunningIff(states, ops, n - 1);
      LifecyclesAlternate(states, ops, n - 1);
      OnlyGrows(states[n - 1], ops[n - 1], states[n]);
      if DroppedStopped(states[n - 1]) {
        StepDrops(states[n - 1], ops[n - 1], states[n]);
      }
    }
  }

  /** Initialized after a shutdown, a plugin is destroyed by the next clear without being shut down. */
  lemma ClearAfterLateInitialize(late: Registry)
    requires late == InitializeAll(ShutdownAll(Enter(EMPTY, "cpu")), map[], {"cpu"})
    ensures exists r' :: Clears(late, r', ["cpu"]) && Running(r'.dropped[0])
  {
    var r := ShutdownAll(Enter(EMPTY, "cpu"));
    assert "cpu" in r.plugins && r.plugins["cpu"] == NEW_PLUGIN && !IsInitialized(r, "cpu");
    var s := InstantiateAll(r, map[]);
    assert "cpu" !in UsableFactories(r, map[]);
    assert s.plugins["cpu"] == NEW_PLUGIN && !IsInitialized(s, "cpu");
    assert late.plugins["cpu"] == Plugin([] + [Initialized]);
    assert forall n :: n in late.plugins <==> n == "cpu";
    var r' := EMPTY.(dropped := late.dropped + PluginsOf(late.plugins, ["cpu"]));
    assert r'.dropped[0] == late.plugins["cpu"];
    assert Clears(late, r', ["cpu"]);
  }
}
