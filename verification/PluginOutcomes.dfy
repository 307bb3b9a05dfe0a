/** What each call of the plugin registry does, stated on the registry before and after it in a run. */
module PluginOutcomes {
  import opened LruCache
  import opened CollectorRegistries

  /** The factory of the name yields a plugin that says it is available. */
  predicate Produces(r: Registry, made: map<string, Made>, name: string) {
    name in r.factories && name in made && made[name].Usable?
  }

  predicate Runs(r: Registry, name: string) {
    name in r.plugins && name in r.initialized && r.initialized[name]
  }

  lemma InstantiatedNames(r: Registry, made: map<string, Made>, name: string)
    requires r.plugins.Keys == r.initialized.Keys
    ensures var s := InstantiateAll(r, made);
      && (name in s.plugins <==> name in r.plugins || Produces(r, made, name))
      && (name in s.plugins ==> s.plugins[name] == if name in r.plugins then r.plugins[name] else Plugin([]))
      && (name in s.factories <==> name in r.factories && !(Produces(r, made, name) && name !in r.plugins))
      && (Runs(s, name) <==> Runs(r, name))
      && s.plugins.Keys == s.initialized.Keys && s.shutdown == r.shutdown && s.dropped == r.dropped
  {
  }

  lemma InitializedNames(s: Registry, succeeds: set<string>, name: string)
    requires s.plugins.Keys == s.initialized.Keys
    ensures var r' := InitializeSome(s, succeeds, s.plugins.Keys);
      && (name in r'.plugins <==> name in s.plugins)
      && (name in s.plugins ==>
            r'.plugins[name].events == s.plugins[name].events
              + if !Runs(s, name) && name in succeeds then [Initialized] else [])
      && (Runs(r', name) <==> Runs(s, name) || (name in s.plugins && name in succeeds))
      && r'.factories == s.factories && r'.shutdown == s.shutdown && r'.dropped == s.dropped
  {
    if name in s.plugins {
      assert s.plugins[name].events + [] == s.plugins[name].events;
    }
  }

  /**
    After an initialization, in any reachable state: a name runs if and only if it ran before, or its
    initialization succeeds and it was stored or had a factory yielding a usable product.  The stored names are
    the old ones and those products; exactly the factories of the products that were entered are gone.
   */
  lemma InitializeOutcome(states: seq<Registry>, ops: seq<Op>, i: nat, name: string)
    requires Run(states, ops) && i < |ops| && ops[i].OpInitialize?
    ensures var r, r', op := states[i], states[i + 1], ops[i];
      && (Runs(r', name) <==>
            Runs(r, name) || (name in op.succeeds && (name in r.plugins || Produces(r, op.made, name))))
      && (name in r'.plugins <==> name in r.plugins || Produces(r, op.made, name))
      && (name in r'.factories <==> name in r.factories && (name in r.plugins || !Produces(r, op.made, name)))
  {
    LifecyclesAlternate(states, ops, i);
    InstantiatedNames(states[i], ops[i].made, name);
    InitializedNames(InstantiateAll(states[i], ops[i].made), ops[i].succeeds, name);
  }

  /** A plugin is initialized exactly when it is newly running, and otherwise not touched; nothing is destroyed. */
  lemma InitializeEvents(states: seq<Registry>, ops: seq<Op>, i: nat, name: string)
    requires Run(states, ops) && i < |ops| && ops[i].OpInitialize? && name in states[i + 1].plugins
    ensures var r, r' := states[i], states[i + 1];
      && r'.plugins[name].events == (if name in r.plugins then r.plugins[name].events else [])
                                    + (if Runs(r', name) && !Runs(r, name) then [Initialized] else [])
      && r'.shutdown == r.shutdown && r'.dropped == r.dropped
  {
    LifecyclesAlternate(states, ops, i);
    InstantiatedNames(states[i], ops[i].made, name);
    InitializedNames(InstantiateAll(states[i], ops[i].made), ops[i].succeeds, name);
  }

  /** Asking for a plugin, or for all, calls the factories and enters what they yield, not running. */
  lemma GetOutcome(states: seq<Registry>, ops: seq<Op>, i: nat, name: string)
    requires Run(states, ops) && i < |ops| && (ops[i].OpGet? || ops[i].OpGetAll?)
    ensures var r, r', op := states[i], states[i + 1], ops[i];
            var asked := op.OpGetAll? || op.name == name;
            var entered := asked && name !in r.plugins && Produces(r, op.made, name);
      && (name in r'.plugins <==> name in r.plugins || entered)
      && (name in r'.plugins ==> r'.plugins[name] == if name in r.plugins then r.plugins[name] else Plugin([]))
      && (name in r'.factories <==> name in r.factories && !entered)
      && (Runs(r', name) <==> Runs(r, name))
  {
    LifecyclesAlternate(states, ops, i);
    if ops[i].OpGetAll? {
      InstantiatedNames(states[i], ops[i].made, name);
    }
  }

  /** An available plugin under a new name is entered, not running; any other registration changes nothing. */
  lemma RegisterOutcome(states: seq<Registry>, ops: seq<Op>, i: nat)
    requires Run(states, ops) && i < |ops| && ops[i].OpRegister?
    ensures var r, r', op := states[i], states[i + 1], ops[i];
            if op.available && op.name !in r.plugins
            then r'.plugins == r.plugins[op.name := Plugin([])] && !Runs(r', op.name)
                 && (forall n :: n != op.name ==> (Runs(r', n) <==> Runs(r, n)))
                 && r'.factories == r.factories && r'.shutdown == r.shutdown && r'.dropped == r.dropped
            else r' == r
  {
    LifecyclesAlternate(states, ops, i);
  }

  /** Removing a stored plugin destroys it, shut down first if it ran; the others and the factories stay. */
  lemma UnregisterOutcome(states: seq<Registry>, ops: seq<Op>, i: nat)
    requires Run(states, ops) && i < |ops| && ops[i].OpUnregister?
    ensures var r, r', name := states[i], states[i + 1], ops[i].name;
            if name !in r.plugins then r' == r
            else
              && r'.plugins == r.plugins - {name} && r'.factories == r.factories && r'.shutdown == r.shutdown
              && (forall n :: n != name ==> (Runs(r', n) <==> Runs(r, n)))
              && |r'.dropped| == |r.dropped| + 1 && r'.dropped[..|r.dropped|] == r.dropped
              && r'.dropped[|r.dropped|].events
                   == r.plugins[name].events + if Runs(r, name) then [ShutDown] else []
  {
    LifecyclesAlternate(states, ops, i);
    var r, name := states[i], ops[i].name;
    if name in r.plugins {
      assert r.plugins[name].events + [] == r.plugins[name].events;
    }
  }

  /** The first shutdown stops every running plugin, once; a later one changes nothing. */
  lemma ShutdownOutcome(states: seq<Registry>, ops: seq<Op>, i: nat)
    requires Run(states, ops) && i < |ops| && ops[i].OpShutdown?
    ensures var r, r' := states[i], states[i + 1];
            if r.shutdown then r' == r
            else
              && r'.shutdown && r'.plugins.Keys == r.plugins.Keys && r'.factories == r.factories
              && r'.dropped == r.dropped
              && (forall n :: n in r.plugins ==>
                    !Runs(r', n)
                    && r'.plugins[n].events == r.plugins[n].events + if Runs(r, n) then [ShutDown] else [])
  {
    LifecyclesAlternate(states, ops, i);
    assert forall n :: n in states[i].plugins ==> states[i].plugins[n].events + [] == states[i].plugins[n].events;
  }

  /** Clearing leaves an empty registry that is not shut down, and destroys every stored plugin. */
  lemma ClearOutcome(states: seq<Registry>, ops: seq<Op>, i: nat)
    requires Run(states, ops) && i < |ops| && ops[i].OpClear?
    ensures var r, r' := states[i], states[i + 1];
      && r'.plugins == map[] && r'.initialized == map[] && r'.factories == {} && !r'.shutdown
      && |r'.dropped| == |r.dropped| + |r.plugins| && r'.dropped[..|r.dropped|] == r.dropped
  {
    LifecyclesAlternate(states, ops, i);
    var r, r' := states[i], states[i + 1];
    var drops :| Clears(r, r', drops);
    ClearedCount(r, r', drops);
    DropsAll(ShutdownAll(r).plugins, drops);
    assert ShutdownAll(r).plugins.Keys == r.plugins.Keys;
  }

  lemma DropsAll(plugins: map<string, Plugin>, drops: seq<string>)
    requires forall n :: n in drops <==> n in plugins
    requires Distinct(drops)
    ensures |drops| == |plugins|
  {
    DistinctSize(drops);
    assert (set n | n in drops) == plugins.Keys;
  }
}
