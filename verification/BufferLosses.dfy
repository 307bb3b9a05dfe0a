/** When exactly the buffer manager loses an item: a condition on the calls that their callers could check. */
module BufferLosses {
  import opened Options
  import opened Folding
  import opened BufferStrategies
  import opened BufferManagers
  import opened BufferHistory

  /** Emptying the buffer now loses nothing: there is a storage, and a fixed-size buffer holds no outdated item. */
  ghost predicate EmptiesCleanly(m: Manager, name: string, now: int) {
    name in m.buffers && m.buffers[name].items != [] ==>
      && m.hasStorage
      && (Effective(m.buffers[name].config).FixedSize? ==>
            forall x :: x in m.buffers[name].items ==> Fresh(m.buffers[name].config, now)(x))
  }

  ghost predicate HasRoom(m: Manager, name: string) {
    name in m.buffers || Buildable(m.defaults) ==> |Contents(m, name)| < Room(Addressee(m, name).config)
  }

  /** The call loses no item given under the name. */
  ghost predicate Lossless(m: Manager, op: Op, name: string) {
    match op
    case OpAdd(n, _, _, _) => n == name ==> HasRoom(m, name)
    case OpFlush(names, now) => name in names ==> EmptiesCleanly(m, name, now)
    case OpConfigure(n, config, now) => n == name && Buildable(config) ==> EmptiesCleanly(m, name, now)
    case OpRemove(n, now) => n == name ==> EmptiesCleanly(m, name, now)
  }

  lemma FlushLosesNothingIff(s: Strategy, now: int)
    requires WithinLimits(s)
    ensures Flush(s, now).lost == [] <==>
              (Effective(s.config).FixedSize? ==> forall x :: x in s.items ==> Fresh(s.config, now)(x))
  {
    FilterEmptyIff(Stale(s.config, now), s.items);
  }

  lemma NothingInNothingOut(s: Strategy, now: int)
    requires WithinLimits(s)
    ensures Flush(s, now).lost == [] && Flush(s, now).flushed == [] <==> s.items == []
  {
    FlushConserves(s, now);
    var r := Flush(s, now);
    assert |multiset(r.flushed)| + |multiset(r.lost)| == |multiset(s.items)|;
  }

  lemma EmptyLoses(m: Manager, name: string, now: int)
    requires name in m.buffers && WithinLimits(m.buffers[name])
    ensures LedgerOf(Empty(m, name, now), name).lost == []
       <==> LedgerOf(m, name).lost == [] && EmptiesCleanly(m, name, now)
  {
    var s := m.buffers[name];
    FlushLosesNothingIff(s, now);
    NothingInNothingOut(s, now);
  }

  lemma FlushLoses(m: Manager, n: string, now: int, name: string)
    requires Kept(m)
    ensures LedgerOf(FlushBuffer(m, n, now), name).lost == []
       <==> LedgerOf(m, name).lost == [] && (n == name ==> EmptiesCleanly(m, name, now))
  {
    if n == name && n in m.buffers {
      EmptyLoses(m, name, now);
    }
  }

  /** Flushing buffers one after the other empties the named ones and leaves the others as they are. */
  lemma {:induction false} FlushEachBuffers(m: Manager, names: seq<string>, now: int, name: string)
    requires Kept(m)
    ensures var m' := FlushEach(m, names, now);
      && m'.hasStorage == m.hasStorage && m'.defaults == m.defaults
      && (name in m'.buffers <==> name in m.buffers)
      && (if name in names then Contents(m', name) == []
          else name in m.buffers ==> m'.buffers[name] == m.buffers[name])
  {
    if names == [] {
    } else {
      var k := |names| - 1;
      FlushEachBuffers(m, names[..k], now, name);
      FlushEachKeeps(m, names[..k], now);
      assert names == names[..k] + [names[k]];
      OneBuffer(FlushEach(m, names[..k], now), names[k], now, name);
    }
  }

  lemma OneBuffer(m: Manager, n: string, now: int, name: string)
    requires Kept(m)
    ensures var m' := FlushBuffer(m, n, now);
      && m'.hasStorage == m.hasStorage && m'.defaults == m.defaults
      && (name in m'.buffers <==> name in m.buffers)
      && (if n == name then Contents(m', name) == []
          else name in m.buffers ==> m'.buffers[name] == m.buffers[name])
  {
    if n == name && n in m.buffers {
      EmptyKeeps(m, name, now);
    }
  }

  lemma {:induction false} FlushEachLoses(m: Manager, names: seq<string>, now: int, name: string)
    requires Kept(m)
    ensures LedgerOf(FlushEach(m, names, now), name).lost == []
       <==> LedgerOf(m, name).lost == [] && (name in names ==> EmptiesCleanly(m, name, now))
  {
    if names == [] {
    } else {
      var k := |names| - 1;
      var mid := FlushEach(m, names[..k], now);
      FlushEachLoses(m, names[..k], now, name);
      FlushEachBuffers(m, names[..k], now, name);
      FlushEachKeeps(m, names[..k], now);
      FlushLoses(mid, names[k], now, name);
      assert names == names[..k] + [names[k]];
    }
  }

  lemma AddLoses(m: Manager, n: string, metric: int, priority: nat, now: int, name: string)
    requires Kept(m)
    ensures LedgerOf(AddMetric(m, n, metric, priority, now), name).lost == []
       <==> LedgerOf(m, name).lost == [] && (n == name ==> HasRoom(m, name))
  {
    if n == name && (name in m.buffers || Buildable(m.defaults)) {
      AddConserves(Addressee(m, name), metric, priority, now);
    }
  }

  /** One call: whatever was not lost before stays so exactly when the call is lossless. */
  lemma StepLoses(m: Manager, op: Op, name: string)
    requires Kept(m)
    ensures LedgerOf(Apply(m, op), name).lost == [] <==> LedgerOf(m, name).lost == [] && Lossless(m, op, name)
  {
    match op {
      case OpAdd(n, metric, priority, now) => AddLoses(m, n, metric, priority, now, name);
      case OpFlush(names, now) => FlushEachLoses(m, names, now, name);
      case OpConfigure(n, config, now) =>
        if n == name && n in m.buffers {
          EmptyLoses(m, name, now);
        }
      case OpRemove(n, now) =>
        if n == name && n in m.buffers {
          EmptyLoses(m, name, now);
        }
    }
  }

  /** The same, with the configuration read from the calls: there is room for one more, in the buffer or a new one. */
  ghost predicate RoomByCalls(defaults: Config, c: Option<Config>, held: nat) {
    match c
    case Some(config) => held < Room(config)
    case None => Buildable(defaults) ==> 0 < Room(defaults)
  }

  ghost predicate EmptiesByCalls(hasStorage: bool, c: Option<Config>, items: seq<Item>, now: int) {
    items != [] ==>
      && hasStorage
      && (c.Some? && Effective(c.value).FixedSize? ==> forall x :: x in items ==> now - x.timestamp <= c.value.maxAge)
  }

  ghost predicate LosslessCall(defaults: Config, hasStorage: bool, c: Option<Config>, items: seq<Item>, op: Op,
                               name: string) {
    match op
    case OpAdd(n, _, _, _) => n == name ==> RoomByCalls(defaults, c, |items|)
    case OpFlush(names, now) => name in names ==> EmptiesByCalls(hasStorage, c, items, now)
    case OpConfigure(n, config, now) => n == name && Buildable(config) ==> EmptiesByCalls(hasStorage, c, items, now)
    case OpRemove(n, now) => n == name ==> EmptiesByCalls(hasStorage, c, items, now)
  }

  lemma ByCallsIsSame(m: Manager, c: Option<Config>, op: Op, name: string)
    requires Configured(m, c, name)
    ensures Lossless(m, op, name) <==> LosslessCall(m.defaults, m.hasStorage, c, Contents(m, name), op, name)
  {
  }

  /** Every call of the run is lossless for the name, with the configuration that the calls before it gave the name. */
  ghost predicate LosslessRun(defaults: Config, hasStorage: bool, ops: seq<Op>, name: string) {
    if ops == [] then true
    else
      var front, op := ops[..|ops| - 1], ops[|ops| - 1];
      var items := Contents(RunOf(Initial(defaults, hasStorage), front), name);
      && LosslessRun(defaults, hasStorage, front, name)
      && LosslessCall(defaults, hasStorage, ConfigOf(defaults, front, name), items, op, name)
  }

  lemma {:induction false} RunLoses(defaults: Config, hasStorage: bool, ops: seq<Op>, name: string)
    ensures LedgerOf(RunOf(Initial(defaults, hasStorage), ops), name).lost == []
       <==> LosslessRun(defaults, hasStorage, ops, name)
  {
    if ops == [] {
    } else {
      var n := |ops| - 1;
      var m := RunOf(Initial(defaults, hasStorage), ops[..n]);
      RunLoses(defaults, hasStorage, ops[..n], name);
      ExactlyOnce(defaults, hasStorage, ops[..n]);
      ConfigFollowsCalls(defaults, hasStorage, ops[..n], name);
      ByCallsIsSame(m, ConfigOf(defaults, ops[..n], name), ops[n], name);
      StepLoses(m, ops[n], name);
    }
  }

  /**
    Over any run without priority-based buffers: what storage was handed under a name, followed by what
    is still buffered, is exactly what was given, in order, if and only if every addition found room and
    every emptying met a storage and no outdated item.
   */
  lemma HandedOverInFullIff(defaults: Config, hasStorage: bool, ops: seq<Op>, name: string)
    requires Fifo(defaults) && forall i :: 0 <= i < |ops| && ops[i].OpConfigure? ==> Fifo(ops[i].config)
    ensures var m := RunOf(Initial(defaults, hasStorage), ops);
            Surviving(m, name) == LedgerOf(m, name).given <==> LosslessRun(defaults, hasStorage, ops, name)
  {
    CompleteIffNothingLost(defaults, hasStorage, ops, name);
    RunLoses(defaults, hasStorage, ops, name);
  }

  /**
    For every strategy, priority-based ones too: the items are complete, in some order, if and only if
    no call loses one.
   */
  lemma AccountedInFullIff(defaults: Config, hasStorage: bool, ops: seq<Op>, name: string)
    ensures var m := RunOf(Initial(defaults, hasStorage), ops);
            multiset(Surviving(m, name)) == multiset(LedgerOf(m, name).given)
              <==> LosslessRun(defaults, hasStorage, ops, name)
  {
    var m := RunOf(Initial(defaults, hasStorage), ops);
    ExactlyOnce(defaults, hasStorage, ops);
    RunLoses(defaults, hasStorage, ops, name);
    assert Accounted(m, name);
    CompleteIffNone(multiset(LedgerOf(m, name).given), HandedOver(m.stored, name), Contents(m, name),
                    LedgerOf(m, name).lost);
  }

  lemma CompleteIffNone(given: multiset<Item>, handed: seq<Item>, items: seq<Item>, lost: seq<Item>)
    requires given == multiset(handed) + multiset(items) + multiset(lost)
    ensures multiset(handed + items) == given <==> lost == []
  {
    assert multiset(handed + items) == multiset(handed) + multiset(items);
    assert |given| == |handed| + |items| + |lost|;
  }
}
