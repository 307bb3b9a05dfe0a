/** The buffer manager: one buffer per metric name, flushed, reconfigured and removed on the way to storage. */
module BufferManagers {
  import opened Folding
  import opened Subsequences
  import opened BufferStrategies

  /** History of one name: the items its strategies were given, and the items that can no longer reach storage. */
  datatype Ledger = Ledger(given: seq<Item>, lost: seq<Item>)

  /** `stored` is what storage was handed, tagged with the name of the buffer it came from. */
  datatype Manager = Manager(defaults: Config, hasStorage: bool, buffers: map<string, Strategy>, totalBuffers: int,
                             totalFlushes: nat, processed: nat, stored: seq<(string, Item)>,
                             ledger: map<string, Ledger>)

  function Initial(defaults: Config, hasStorage: bool): Manager {
    Manager(defaults, hasStorage, map[], 0, 0, 0, [], map[])
  }

  function LedgerOf(m: Manager, name: string): Ledger {
    if name in m.ledger then m.ledger[name] else Ledger([], [])
  }

  function Contents(m: Manager, name: string): seq<Item> {
    if name in m.buffers then m.buffers[name].items else []
  }

  function OfName(name: string): ((string, Item)) -> bool {
    (t: (string, Item)) => t.0 == name
  }

  function ItemsOf(ts: seq<(string, Item)>): (r: seq<Item>)
    ensures |r| == |ts|
  {
    seq(|ts|, i requires 0 <= i < |ts| => ts[i].1)
  }

  function HandedOver(stored: seq<(string, Item)>, name: string): seq<Item> {
    ItemsOf(Filter(OfName(name), stored))
  }

  function Tagged(name: string, items: seq<Item>): (r: seq<(string, Item)>)
    ensures |r| == |items|
  {
    seq(|items|, i requires 0 <= i < |items| => (name, items[i]))
  }

  // ---------- one call each ----------

  function AddMetric(m: Manager, name: string, metric: int, priority: nat, now: int): Manager {
    if name !in m.buffers && !Buildable(m.defaults) then m
    else
      var s := Addressee(m, name);
      var r := Add(s, metric, priority, now);
      var l := LedgerOf(m, name);
      m.(buffers := m.buffers[name := r.strategy],
         totalBuffers := if name in m.buffers then m.totalBuffers else m.totalBuffers + 1,
         ledger := m.ledger[name := Ledger(l.given + [Arrival(s, metric, priority, now)], l.lost + r.lost)])
  }

  /** The buffer's items leave it: to storage if there is one. */
  function Empty(m: Manager, name: string, now: int): Manager
    requires name in m.buffers
  {
    var r := Flush(m.buffers[name], now);
    var l := LedgerOf(m, name);
    m.(buffers := m.buffers[name := r.strategy],
       stored := if m.hasStorage then m.stored + Tagged(name, r.flushed) else m.stored,
       ledger := m.ledger[name := Ledger(l.given, l.lost + r.lost + if m.hasStorage then [] else r.flushed)])
  }

  function FlushBuffer(m: Manager, name: string, now: int): Manager {
    if name !in m.buffers then m
    else
      var flushed := Flush(m.buffers[name], now).flushed;
      var m' := Empty(m, name, now);
      if flushed == [] then m'
      else m'.(totalFlushes := m.totalFlushes + 1, processed := m.processed + |flushed|)
  }

  function FlushEach(m: Manager, names: seq<string>, now: int): Manager {
    if names == [] then m else FlushBuffer(FlushEach(m, names[..|names| - 1], now), names[|names| - 1], now)
  }

  function Configure(m: Manager, name: string, c: Config, now: int): Manager {
    if !Buildable(c) then m
    else
      var m' := if name in m.buffers then Empty(m, name, now) else m.(totalBuffers := m.totalBuffers + 1);
      m'.(buffers := m'.buffers[name := NewStrategy(c)])
  }

  function Remove(m: Manager, name: string, now: int): Manager {
    if name !in m.buffers then m
    else
      var m' := Empty(m, name, now);
      m'.(buffers := m'.buffers - {name}, totalBuffers := m.totalBuffers - 1)
  }

  // ---------- runs ----------

  datatype Op =
    | OpAdd(name: string, metric: int, priority: nat, now: int)
    | OpFlush(names: seq<string>, now: int)  // one name, all names, or those a background check found due
    | OpConfigure(name: string, config: Config, now: int)
    | OpRemove(name: string, now: int)

  function Apply(m: Manager, op: Op): Manager {
    match op
    case OpAdd(name, metric, priority, now) => AddMetric(m, name, metric, priority, now)
    case OpFlush(names, now) => FlushEach(m, names, now)
    case OpConfigure(name, config, now) => Configure(m, name, config, now)
    case OpRemove(name, now) => Remove(m, name, now)
  }

  function RunOf(m: Manager, ops: seq<Op>): Manager {
    Fold(Apply, m, ops)
  }

  // ---------- exactly once ----------

  /** Every item given is handed over, still buffered, or reported lost: once, and in one place only. */
  ghost predicate Accounted(m: Manager, name: string) {
    multiset(LedgerOf(m, name).given)
      == multiset(HandedOver(m.stored, name)) + multiset(Contents(m, name)) + multiset(LedgerOf(m, name).lost)
  }

  ghost predicate Kept(m: Manager) {
    && (forall name :: Accounted(m, name))
    && (forall name :: name in m.buffers ==> WithinLimits(m.buffers[name]))
    && m.totalBuffers == |m.buffers|
  }

  lemma ItemsOfConcat(a: seq<(string, Item)>, b: seq<(string, Item)>)
    ensures ItemsOf(a + b) == ItemsOf(a) + ItemsOf(b)
  {
  }

  lemma HandedOverConcat(a: seq<(string, Item)>, b: seq<(string, Item)>, name: string)
    ensures HandedOver(a + b, name) == HandedOver(a, name) + HandedOver(b, name)
  {
    FilterConcat(OfName(name), a, b);
    ItemsOfConcat(Filter(OfName(name), a), Filter(OfName(name), b));
  }

  lemma HandedOverTagged(name: string, items: seq<Item>, other: string)
    ensures HandedOver(Tagged(name, items), other) == if name == other then items else []
  {
    if name == other {
      FilterWhole(OfName(other), Tagged(name, items));
    } else {
      FilterEmptyIff(OfName(other), Tagged(name, items));
    }
    assert ItemsOf(Tagged(name, items)) == items;
  }

  lemma HandedAfterEmpty(m: Manager, name: string, now: int, other: string)
    requires name in m.buffers
    ensures HandedOver(Empty(m, name, now).stored, other)
         == HandedOver(m.stored, other)
            + if other == name && m.hasStorage then Flush(m.buffers[name], now).flushed else []
  {
    var flushed := Flush(m.buffers[name], now).flushed;
    HandedOverConcat(m.stored, Tagged(name, flushed), other);
    HandedOverTagged(name, flushed, other);
  }

  lemma EmptyOther(m: Manager, name: string, now: int, other: string)
    requires name in m.buffers && Accounted(m, other) && other != name
    ensures Accounted(Empty(m, name, now), other)
  {
    HandedAfterEmpty(m, name, now, other);
  }

  lemma EmptyToStorage(m: Manager, name: string, now: int)
    requires name in m.buffers && WithinLimits(m.buffers[name]) && Accounted(m, name) && m.hasStorage
    ensures Accounted(Empty(m, name, now), name)
  {
    var r := Flush(m.buffers[name], now);
    var l := LedgerOf(m, name);
    HandedAfterEmpty(m, name, now, name);
    FlushConserves(m.buffers[name], now);
    Split(HandedOver(m.stored, name), m.buffers[name].items, l.lost, r.flushed, r.lost);
    assert l.lost + r.lost + [] == l.lost + r.lost;
  }

  lemma LoseBoth(items: seq<Item>, lost: seq<Item>, flushed: seq<Item>, expired: seq<Item>)
    requires multiset(flushed) + multiset(expired) == multiset(items)
    ensures multiset(lost + expired + flushed) == multiset(items) + multiset(lost)
  {
  }

  lemma EmptyToNowhere(m: Manager, name: string, now: int)
    requires name in m.buffers && WithinLimits(m.buffers[name]) && Accounted(m, name) && !m.hasStorage
    ensures Accounted(Empty(m, name, now), name)
  {
    var r := Flush(m.buffers[name], now);
    FlushConserves(m.buffers[name], now);
    LoseBoth(m.buffers[name].items, LedgerOf(m, name).lost, r.flushed, r.lost);
  }

  lemma EmptyAccounted(m: Manager, name: string, now: int, other: string)
    requires name in m.buffers && WithinLimits(m.buffers[name]) && Accounted(m, other)
    ensures Accounted(Empty(m, name, now), other)
  {
    if other != name {
      EmptyOther(m, name, now, other);
    } else if m.hasStorage {
      EmptyToStorage(m, name, now);
    } else {
      EmptyToNowhere(m, name, now);
    }
  }

  lemma Split(handed: seq<Item>, items: seq<Item>, lost: seq<Item>, flushed: seq<Item>, expired: seq<Item>)
    requires multiset(flushed) + multiset(expired) == multiset(items)
    ensures multiset(handed + flushed) + multiset(lost + expired) == multiset(handed) + multiset(items) + multiset(lost)
  {
  }

  lemma EmptyKeeps(m: Manager, name: string, now: int)
    requires Kept(m) && name in m.buffers
    ensures Kept(Empty(m, name, now)) && Contents(Empty(m, name, now), name) == []
  {
    var m' := Empty(m, name, now);
    FlushConserves(m.buffers[name], now);
    assert m'.buffers.Keys == m.buffers.Keys;
    forall other ensures Accounted(m', other) {
      EmptyAccounted(m, name, now, other);
    }
  }

  /** The strategy an addition goes to. */
  function Addressee(m: Manager, name: string): Strategy {
    if name in m.buffers then m.buffers[name] else NewStrategy(m.defaults)
  }

  lemma AddAccounted(m: Manager, name: string, metric: int, priority: nat, now: int, other: string)
    requires WithinLimits(Addressee(m, name)) && Accounted(m, other)
    ensures Accounted(AddMetric(m, name, metric, priority, now), other)
  {
    if other == name {
      var s := Addressee(m, name);
      var r := Add(s, metric, priority, now);
      AddConserves(s, metric, priority, now);
      Arrive(LedgerOf(m, name), HandedOver(m.stored, name), Contents(m, name), r.strategy.items, r.lost,
             Arrival(s, metric, priority, now));
    }
  }

  lemma Arrive(l: Ledger, handed: seq<Item>, items: seq<Item>, items': seq<Item>, lost: seq<Item>, x: Item)
    requires multiset(l.given) == multiset(handed) + multiset(items) + multiset(l.lost)
    requires multiset(items') + multiset(lost) == multiset(items) + multiset{x}
    ensures multiset(l.given + [x]) == multiset(handed) + multiset(items') + multiset(l.lost + lost)
  {
    Rebalance(multiset(l.given), multiset(handed), multiset(items), multiset(items'), multiset(l.lost), multiset(lost),
              multiset{x});
  }

  lemma Rebalance(given: multiset<Item>, handed: multiset<Item>, items: multiset<Item>, items': multiset<Item>,
                  lost: multiset<Item>, more: multiset<Item>, x: multiset<Item>)
    requires given == handed + items + lost && items' + more == items + x
    ensures given + x == handed + items' + (lost + more)
  {
    forall e: Item ensures (given + x)[e] == (handed + items' + (lost + more))[e] {
      assert (items' + more)[e] == (items + x)[e];
    }
    assert given + x == handed + items' + (lost + more);
  }

  lemma PutCount(m: map<string, Strategy>, name: string, s: Strategy)
    ensures |m[name := s]| == |m| + if name in m then 0 else 1
  {
    assert m[name := s].Keys == m.Keys + {name};
  }

  lemma AddKeeps(m: Manager, name: string, metric: int, priority: nat, now: int)
    requires Kept(m)
    ensures Kept(AddMetric(m, name, metric, priority, now))
  {
    if name in m.buffers || Buildable(m.defaults) {
      var s := Addressee(m, name);
      AddConserves(s, metric, priority, now);
      PutCount(m.buffers, name, Add(s, metric, priority, now).strategy);
      forall other ensures Accounted(AddMetric(m, name, metric, priority, now), other) {
        AddAccounted(m, name, metric, priority, now, other);
      }
    }
  }

  lemma FlushKeeps(m: Manager, name: string, now: int)
    requires Kept(m)
    ensures Kept(FlushBuffer(m, name, now))
  {
    if name in m.buffers {
      EmptyKeeps(m, name, now);
      var e, m' := Empty(m, name, now), FlushBuffer(m, name, now);
      forall other ensures Accounted(m', other) {
        assert Accounted(e, other);
      }
    }
  }

  lemma {:induction false} FlushEachKeeps(m: Manager, names: seq<string>, now: int)
    requires Kept(m)
    ensures Kept(FlushEach(m, names, now))
  {
    if names == [] {
    } else {
      FlushEachKeeps(m, names[..|names| - 1], now);
      FlushKeeps(FlushEach(m, names[..|names| - 1], now), names[|names| - 1], now);
    }
  }

  lemma ReplaceEmpty(m: Manager, name: string, s: Strategy, extra: int)
    requires Kept(m) && Contents(m, name) == [] && WithinLimits(s) && s.items == []
    requires extra == if name in m.buffers then 0 else 1
    ensures Kept(m.(buffers := m.buffers[name := s], totalBuffers := m.totalBuffers + extra))
  {
    var m' := m.(buffers := m.buffers[name := s], totalBuffers := m.totalBuffers + extra);
    PutCount(m.buffers, name, s);
    forall other ensures Accounted(m', other) {
      assert Accounted(m, other);
    }
  }

  lemma ConfigureKeeps(m: Manager, name: string, c: Config, now: int)
    requires Kept(m)
    ensures Kept(Configure(m, name, c, now))
  {
    if Buildable(c) {
      if name in m.buffers {
        ReplaceKeeps(m, name, c, now);
      } else {
        ReplaceEmpty(m, name, NewStrategy(c), 1);
      }
    }
  }

  lemma ReplaceKeeps(m: Manager, name: string, c: Config, now: int)
    requires Kept(m) && Buildable(c) && name in m.buffers
    ensures Kept(Configure(m, name, c, now))
  {
    var m' := Empty(m, name, now);
    EmptyKeeps(m, name, now);
    ReplaceEmpty(m', name, NewStrategy(c), 0);
    assert Configure(m, name, c, now)
           == m'.(buffers := m'.buffers[name := NewStrategy(c)], totalBuffers := m'.totalBuffers + 0);
  }

  lemma RemoveKeeps(m: Manager, name: string, now: int)
    requires Kept(m)
    ensures Kept(Remove(m, name, now))
  {
    if name in m.buffers {
      EmptyKeeps(m, name, now);
      DropEmpty(Empty(m, name, now), name);
    }
  }

  lemma DropCount(m: map<string, Strategy>, name: string)
    requires name in m
    ensures |m - {name}| == |m| - 1
  {
    assert m.Keys == (m - {name}).Keys + {name};
  }

  lemma DropEmpty(m: Manager, name: string)
    requires Kept(m) && name in m.buffers && Contents(m, name) == []
    ensures Kept(m.(buffers := m.buffers - {name}, totalBuffers := m.totalBuffers - 1))
  {
    var m' := m.(buffers := m.buffers - {name}, totalBuffers := m.totalBuffers - 1);
    DropCount(m.buffers, name);
    forall other ensures Accounted(m', other) {
      assert Accounted(m, other);
    }
  }

  /**
    Over any run of adding, flushing, background checks, reconfiguring and removing: every item given
    under a name is in exactly one of storage, the buffer and the losses, and total_buffers is exact.
   */
  lemma {:induction false} ExactlyOnce(defaults: Config, hasStorage: bool, ops: seq<Op>)
    ensures Kept(RunOf(Initial(defaults, hasStorage), ops))
  {
    if ops == [] {
      forall name ensures Accounted(Initial(defaults, hasStorage), name) {
      }
    } else {
      var n := |ops| - 1;
      ExactlyOnce(defaults, hasStorage, ops[..n]);
      var m := RunOf(Initial(defaults, hasStorage), ops[..n]);
      match ops[n] {
        case OpAdd(name, metric, priority, now) => AddKeeps(m, name, metric, priority, now);
        case OpFlush(names, now) => FlushEachKeeps(m, names, now);
        case OpConfigure(name, config, now) => ConfigureKeeps(m, name, config, now);
        case OpRemove(name, now) => RemoveKeeps(m, name, now);
      }
    }
  }

  // ---------- in order ----------

  /** Every kind but the priority-based one keeps the order of arrival. */
  predicate Fifo(c: Config) {
    !Effective(c).PriorityBased?
  }

  ghost predicate AllFifo(m: Manager) {
    Fifo(m.defaults) && forall name :: name in m.buffers ==> Fifo(m.buffers[name].config)
  }

  function Surviving(m: Manager, name: string): seq<Item> {
    HandedOver(m.stored, name) + Contents(m, name)
  }

  /** What was handed over, then what is buffered: the given items in order, less the lost ones. */
  ghost predicate InOrder(m: Manager, name: string) {
    IsSubsequence(Surviving(m, name), LedgerOf(m, name).given)
  }

  lemma AddKeepsOrder(s: Strategy, metric: int, priority: nat, now: int)
    requires Fifo(s.config)
    ensures IsSubsequence(Add(s, metric, priority, now).strategy.items, s.items + [Arrival(s, metric, priority, now)])
  {
    var x := Arrival(s, metric, priority, now);
    SubRefl(s.items);
    SubSkip(s.items, s.items, x);
    SubAppend(s.items, s.items, x);
    if s.items != [] {
      SubDropFirst(s.items);
      SubAppend(s.items[1..], s.items, x);
    }
  }

  lemma FlushKeepsOrder(s: Strategy, now: int)
    requires Fifo(s.config)
    ensures IsSubsequence(Flush(s, now).flushed, s.items)
  {
    SubRefl(s.items);
    SubFilter(Fresh(s.config, now), s.items);
  }

  lemma AddInOrder(m: Manager, name: string, metric: int, priority: nat, now: int, other: string)
    requires AllFifo(m) && InOrder(m, other)
    ensures InOrder(AddMetric(m, name, metric, priority, now), other)
  {
    if other == name {
      assert Addressee(m, name).items == Contents(m, name);
      ArrivesInOrder(HandedOver(m.stored, name), Addressee(m, name), metric, priority, now, LedgerOf(m, name).given);
    }
  }

  lemma ArrivesInOrder(handed: seq<Item>, s: Strategy, metric: int, priority: nat, now: int, given: seq<Item>)
    requires Fifo(s.config) && IsSubsequence(handed + s.items, given)
    ensures IsSubsequence(handed + Add(s, metric, priority, now).strategy.items,
                          given + [Arrival(s, metric, priority, now)])
  {
    AddKeepsOrder(s, metric, priority, now);
    AfterPrefix(handed, Add(s, metric, priority, now).strategy.items, s.items,
                Arrival(s, metric, priority, now), given);
  }

  lemma AfterPrefix(handed: seq<Item>, kept: seq<Item>, items: seq<Item>, x: Item, given: seq<Item>)
    requires IsSubsequence(kept, items + [x]) && IsSubsequence(handed + items, given)
    ensures IsSubsequence(handed + kept, given + [x])
  {
    SubConcat(handed, kept, items + [x]);
    SubAppend(handed + items, given, x);
    assert handed + (items + [x]) == handed + items + [x];
    SubTransitive(handed + kept, handed + items + [x], given + [x]);
  }

  lemma EmptyInOrder(m: Manager, name: string, now: int, other: string)
    requires name in m.buffers && Fifo(m.buffers[name].config) && WithinLimits(m.buffers[name]) && InOrder(m, other)
    ensures InOrder(Empty(m, name, now), other)
  {
    HandedAfterEmpty(m, name, now, other);
    if other == name {
      var flushed := if m.hasStorage then Flush(m.buffers[name], now).flushed else [];
      FlushedInOrder(HandedOver(m.stored, name), m.buffers[name], flushed, now, LedgerOf(m, name).given);
      EmptyLeavesNothing(m.buffers[name], now, HandedOver(m.stored, name) + flushed, LedgerOf(m, name).given);
      assert HandedOver(Empty(m, name, now).stored, name) == HandedOver(m.stored, name) + flushed;
    } else {
      assert HandedOver(m.stored, other) + [] == HandedOver(m.stored, other);
      assert Surviving(Empty(m, name, now), other) == Surviving(m, other);
    }
  }

  lemma FlushedInOrder(handed: seq<Item>, s: Strategy, flushed: seq<Item>, now: int, given: seq<Item>)
    requires Fifo(s.config) && (flushed == [] || flushed == Flush(s, now).flushed)
    requires IsSubsequence(handed + s.items, given)
    ensures IsSubsequence(handed + flushed, given)
  {
    FlushKeepsOrder(s, now);
    SubConcat(handed, flushed, s.items);
    SubTransitive(handed + flushed, handed + s.items, given);
  }

  lemma EmptyLeavesNothing(s: Strategy, now: int, front: seq<Item>, given: seq<Item>)
    requires IsSubsequence(front, given) && (Effective(s.config).Immediate? ==> s.items == [])
    ensures IsSubsequence(front + Flush(s, now).strategy.items, given)
  {
    assert front + Flush(s, now).strategy.items == front;
  }

  ghost predicate Orderly(m: Manager) {
    AllFifo(m) && forall name :: InOrder(m, name)
  }

  lemma FlushOrderly(m: Manager, name: string, now: int)
    requires Kept(m) && Orderly(m)
    ensures Orderly(FlushBuffer(m, name, now))
  {
    if name in m.buffers {
      var e, m' := Empty(m, name, now), FlushBuffer(m, name, now);
      forall other ensures InOrder(m', other) {
        EmptyInOrder(m, name, now, other);
        assert Surviving(m', other) == Surviving(e, other);
      }
    }
  }

  lemma {:induction false} FlushEachOrderly(m: Manager, names: seq<string>, now: int)
    requires Kept(m) && Orderly(m)
    ensures Orderly(FlushEach(m, names, now))
  {
    if names == [] {
    } else {
      FlushEachOrderly(m, names[..|names| - 1], now);
      FlushEachKeeps(m, names[..|names| - 1], now);
      FlushOrderly(FlushEach(m, names[..|names| - 1], now), names[|names| - 1], now);
    }
  }

  lemma ReplaceInOrder(m: Manager, name: string, c: Config, now: int, other: string)
    requires Kept(m) && Orderly(m) && Buildable(c) && name in m.buffers
    ensures InOrder(Configure(m, name, c, now), other)
  {
    EmptyKeeps(m, name, now);
    assert InOrder(m, other);
    EmptyInOrder(m, name, now, other);
    assert Surviving(Configure(m, name, c, now), other) == Surviving(Empty(m, name, now), other);
  }

  lemma InstallInOrder(m: Manager, name: string, c: Config, now: int, other: string)
    requires Orderly(m) && Buildable(c) && name !in m.buffers
    ensures InOrder(Configure(m, name, c, now), other)
  {
    assert InOrder(m, other);
    assert Surviving(Configure(m, name, c, now), other) == Surviving(m, other);
  }

  lemma ConfigureOrderly(m: Manager, name: string, c: Config, now: int)
    requires Kept(m) && Orderly(m) && Fifo(c)
    ensures Orderly(Configure(m, name, c, now))
  {
    if Buildable(c) {
      forall other ensures InOrder(Configure(m, name, c, now), other) {
        if name in m.buffers {
          ReplaceInOrder(m, name, c, now, other);
        } else {
          InstallInOrder(m, name, c, now, other);
        }
      }
    }
  }

  lemma RemoveOrderly(m: Manager, name: string, now: int)
    requires Kept(m) && Orderly(m)
    ensures Orderly(Remove(m, name, now))
  {
    if name in m.buffers {
      var m' := Remove(m, name, now);
      forall other ensures InOrder(m', other) {
        EmptyKeeps(m, name, now);
        EmptyInOrder(m, name, now, other);
        assert Surviving(m', other) == Surviving(Empty(m, name, now), other);
      }
    }
  }

  lemma AddOrderly(m: Manager, name: string, metric: int, priority: nat, now: int)
    requires Orderly(m)
    ensures Orderly(AddMetric(m, name, metric, priority, now))
  {
    forall other ensures InOrder(AddMetric(m, name, metric, priority, now), other) {
      assert InOrder(m, other);
      AddInOrder(m, name, metric, priority, now, other);
    }
  }

  /** Without priority-based buffers, hand-over is in order of arrival across any run. */
  lemma {:induction false} InOrderHandOver(defaults: Config, hasStorage: bool, ops: seq<Op>)
    requires Fifo(defaults) && forall i :: 0 <= i < |ops| && ops[i].OpConfigure? ==> Fifo(ops[i].config)
    ensures Orderly(RunOf(Initial(defaults, hasStorage), ops))
  {
    if ops == [] {
    } else {
      var n := |ops| - 1;
      InOrderHandOver(defaults, hasStorage, ops[..n]);
      ExactlyOnce(defaults, hasStorage, ops[..n]);
      var m := RunOf(Initial(defaults, hasStorage), ops[..n]);
      match ops[n] {
        case OpAdd(name, metric, priority, now) => AddOrderly(m, name, metric, priority, now);
        case OpFlush(names, now) => FlushEachOrderly(m, names, now);
        case OpConfigure(name, config, now) => ConfigureOrderly(m, name, config, now);
        case OpRemove(name, now) => RemoveOrderly(m, name, now);
      }
    }
  }

  /** What storage got followed by what is buffered is exactly what was given if and only if nothing was lost. */
  lemma CompleteIffNothingLost(defaults: Config, hasStorage: bool, ops: seq<Op>, name: string)
    requires Fifo(defaults) && forall i :: 0 <= i < |ops| && ops[i].OpConfigure? ==> Fifo(ops[i].config)
    ensures var m := RunOf(Initial(defaults, hasStorage), ops);
            Surviving(m, name) == LedgerOf(m, name).given <==> LedgerOf(m, name).lost == []
  {
    var m := RunOf(Initial(defaults, hasStorage), ops);
    InOrderHandOver(defaults, hasStorage, ops);
    ExactlyOnce(defaults, hasStorage, ops);
    assert InOrder(m, name) && Accounted(m, name);
    SubLength(Surviving(m, name), LedgerOf(m, name).given);
    var l := LedgerOf(m, name);
    assert |multiset(l.given)| == |Surviving(m, name)| + |multiset(l.lost)|;
  }

  lemma FlushIsEmpty(m: Manager, name: string, now: int, emptied: Manager, m': Manager)
    requires name in m.buffers && emptied == Empty(m, name, now)
    requires var n := |Flush(m.buffers[name], now).flushed|;
             m' == if n == 0 then emptied
                   else emptied.(totalFlushes := emptied.totalFlushes + 1, processed := emptied.processed + n)
    ensures m' == FlushBuffer(m, name, now)
  {
  }

  // ---------- the manager as an object ----------

  lemma FoundThenAdded(m: Manager, name: string, metric: int, priority: nat, now: int, found: Manager, added: Manager)
    requires name in m.buffers || Buildable(m.defaults)
    requires found == if name in m.buffers then m
                      else m.(buffers := m.buffers[name := NewStrategy(m.defaults)], totalBuffers := m.totalBuffers + 1)
    requires var s := found.buffers[name]; var r := Add(s, metric, priority, now); var l := LedgerOf(found, name);
             added == found.(buffers := found.buffers[name := r.strategy],
                             ledger := found.ledger[name := Ledger(l.given + [Arrival(s, metric, priority, now)],
                                                                  l.lost + r.lost)])
    ensures added == AddMetric(m, name, metric, priority, now)
  {
    assert found.buffers[name] == Addressee(m, name);
    assert added.buffers == AddMetric(m, name, metric, priority, now).buffers;
  }

  class BufferManager {
    const defaults: Config
    const maxConcurrentFlushes: nat
    const hasStorage: bool
    var buffers: map<string, BufferStrategy>
    var totalBuffers: int
    var totalFlushes: nat
    var processed: nat
    ghost var stored: seq<(string, Item)>
    ghost var ledger: map<string, Ledger>
    ghost var repr: set<BufferStrategy>

    constructor (defaults: Config, maxConcurrentFlushes: nat, hasStorage: bool)
      ensures Valid() && repr == {} && Abs() == Initial(defaults, hasStorage)
    {
      this.defaults, this.maxConcurrentFlushes, this.hasStorage := defaults, maxConcurrentFlushes, hasStorage;
      buffers, totalBuffers, totalFlushes, processed := map[], 0, 0, 0;
      stored, ledger, repr := [], map[], {};
    }

    ghost predicate Valid()
      reads this
    {
      && (forall k :: k in buffers ==> buffers[k] in repr)
      && (forall j, k :: j in buffers && k in buffers && j != k ==> buffers[j] != buffers[k])
    }

    ghost function Views(): map<string, Strategy>
      requires Valid()
      reads this, repr
    {
      map k | k in buffers :: buffers[k].View()
    }

    ghost function Abs(): Manager
      requires Valid()
      reads this, repr
    {
      Manager(defaults, hasStorage, Views(), totalBuffers, totalFlushes, processed, stored, ledger)
    }

    method Install(name: string, strategy: BufferStrategy)
      requires Valid() && strategy !in repr
      modifies this`buffers, this`repr
      ensures Valid() && repr == old(repr) + {strategy}
      ensures buffers == old(buffers)[name := strategy]
      ensures Views() == old(Views())[name := strategy.View()]
    {
      buffers := buffers[name := strategy];
      repr := repr + {strategy};
    }

    method FindOrCreate(name: string) returns (found: bool)
      requires Valid()
      modifies this`buffers, this`totalBuffers, this`repr
      ensures Valid() && old(repr) <= repr && fresh(repr - old(repr))
      ensures found <==> name in old(buffers) || Buildable(defaults)
      ensures found <==> name in buffers
      ensures Views() == if name in old(buffers) || !Buildable(defaults) then old(Views())
                         else old(Views())[name := NewStrategy(defaults)]
      ensures totalBuffers == if name in old(buffers) || !Buildable(defaults) then old(totalBuffers)
                              else old(totalBuffers) + 1
    {
      if name !in buffers {
        if !Buildable(defaults) {
          return false;
        }
        var strategy := new BufferStrategy(defaults);
        Install(name, strategy);
        totalBuffers := totalBuffers + 1;
      }
      return true;
    }

    method AddTo(name: string, metric: int, priority: nat, now: int)
      requires Valid() && name in buffers
      modifies this`ledger, buffers[name]
      ensures Valid()
      ensures var s := old(Views())[name]; var r := Add(s, metric, priority, now); var l := LedgerOf(old(Abs()), name);
              Abs() == old(Abs()).(buffers := old(Views())[name := r.strategy],
                                   ledger := old(ledger)[name := Ledger(l.given + [Arrival(s, metric, priority, now)],
                                                                        l.lost + r.lost)])
    {
      ghost var s := Views()[name];
      ghost var lost := PutInto(name, metric, priority, now);
      Note(name, Arrival(s, metric, priority, now), lost);
    }

    method PutInto(name: string, metric: int, priority: nat, now: int) returns (ghost lost: seq<Item>)
      requires Valid() && name in buffers
      modifies buffers[name]
      ensures Valid()
      ensures var r := Add(old(Views())[name], metric, priority, now);
              lost == r.lost && Views() == old(Views())[name := r.strategy]
    {
      lost := buffers[name].AddMetric(metric, priority, now);
    }

    ghost method Note(name: string, item: Item, lost: seq<Item>)
      requires Valid()
      modifies this`ledger
      ensures Valid()
      ensures var l := LedgerOf(old(Abs()), name);
              Abs() == old(Abs()).(ledger := old(ledger)[name := Ledger(l.given + [item], l.lost + lost)])
    {
      var l := LedgerOf(Abs(), name);
      ledger := ledger[name := Ledger(l.given + [item], l.lost + lost)];
    }

    method AddToBuffer(name: string, metric: int, priority: nat, now: int) returns (accepted: bool)
      requires Valid()
      modifies this, repr
      ensures Valid() && old(repr) <= repr && fresh(repr - old(repr))
      ensures accepted <==> name in old(buffers) || Buildable(defaults)
      ensures Abs() == AddMetric(old(Abs()), name, metric, priority, now)
    {
      ghost var before := Abs();
      accepted := FindOrCreate(name);
      if accepted {
        ghost var found := Abs();
        AddTo(name, metric, priority, now);
        FoundThenAdded(before, name, metric, priority, now, found, Abs());
      }
    }

    /** Takes the buffer's items out and gives them to storage, if there is one. */
    method EmptyBuffer(name: string, now: int) returns (flushed: seq<Item>)
      requires Valid() && name in buffers
      modifies this`stored, this`ledger, buffers[name]
      ensures Valid() && Abs() == Empty(old(Abs()), name, now)
      ensures flushed == Flush(old(Views())[name], now).flushed
    {
      ghost var before := Abs();
      ghost var lost;
      flushed, lost := buffers[name].FlushItems(now);
      assert Views() == before.buffers[name := Flush(before.buffers[name], now).strategy];
      HandOver(name, flushed, lost);
    }

    method HandOver(name: string, flushed: seq<Item>, ghost lost: seq<Item>)
      requires Valid()
      modifies this`stored, this`ledger
      ensures Valid()
      ensures var m := old(Abs()); var l := LedgerOf(m, name);
              Abs() == m.(stored := if hasStorage then m.stored + Tagged(name, flushed) else m.stored,
                          ledger := m.ledger[name := Ledger(l.given,
                                                          l.lost + lost + if hasStorage then [] else flushed)])
    {
      ghost var l := LedgerOf(Abs(), name);
      if hasStorage {
        stored := stored + Tagged(name, flushed);
      }
      ledger := ledger[name := Ledger(l.given, l.lost + lost + if hasStorage then [] else flushed)];
    }

    method CountFlush(items: nat)
      requires Valid()
      modifies this`totalFlushes, this`processed
      ensures Valid()
      ensures Abs() == old(Abs()).(totalFlushes := old(totalFlushes) + 1, processed := old(processed) + items)
    {
      totalFlushes := totalFlushes + 1;
      processed := processed + items;
    }

    method FlushOne(name: string, now: int) returns (found: bool)
      requires Valid()
      modifies this`stored, this`ledger, this`totalFlushes, this`processed, repr
      ensures Valid() && found == (name in buffers)
      ensures Abs() == FlushBuffer(old(Abs()), name, now)
      ensures hasStorage ==>
                && processed == old(processed) + |stored| - |old(stored)|
                && totalFlushes == if stored == old(stored) then old(totalFlushes) else old(totalFlushes) + 1
    {
      if name !in buffers {
        return false;
      }
      ghost var before := Abs();
      var flushed := EmptyBuffer(name, now);
      ghost var emptied := Abs();
      if flushed != [] {
        CountFlush(|flushed|);
      }
      FlushIsEmpty(before, name, now, emptied, Abs());
      return true;
    }

    /** What becomes of the buffer that is about to be replaced, or the count of the one about to appear. */
    method EmptyOrCount(name: string, now: int)
      requires Valid()
      modifies this`totalBuffers, this`stored, this`ledger, repr
      ensures Valid()
      ensures var m := old(Abs());
              Abs() == if name in m.buffers then Empty(m, name, now) else m.(totalBuffers := m.totalBuffers + 1)
    {
      if name in buffers {
        var _ := EmptyBuffer(name, now);
      } else {
        totalBuffers := totalBuffers + 1;
      }
    }

    method ConfigureMetricBuffer(name: string, config: Config, now: int) returns (accepted: bool)
      requires Valid()
      modifies this, repr
      ensures Valid() && old(repr) <= repr && fresh(repr - old(repr))
      ensures accepted == Buildable(config)
      ensures Abs() == Configure(old(Abs()), name, config, now)
      ensures accepted ==> name in buffers && buffers[name].config == config && buffers[name].items == []
      ensures forall k :: k in old(buffers) && k != name ==> k in buffers && buffers[k] == old(buffers)[k]
    {
      if !Buildable(config) {
        return false;
      }
      ghost var before := Abs();
      EmptyOrCount(name, now);
      ghost var mid := Abs();
      var strategy := new BufferStrategy(config);
      Install(name, strategy);
      assert Abs() == mid.(buffers := mid.buffers[name := NewStrategy(config)]);
      return true;
    }

    method RemoveBuffer(name: string, now: int) returns (found: bool)
      requires Valid()
      modifies this, repr
      ensures Valid() && repr == old(repr) && found == (name in old(buffers))
      ensures Abs() == Remove(old(Abs()), name, now)
    {
      if name !in buffers {
        return false;
      }
      var _ := EmptyBuffer(name, now);
      Forget(name);
      return true;
    }

    method Forget(name: string)
      requires Valid() && name in buffers
      modifies this`buffers, this`totalBuffers
      ensures Valid()
      ensures Abs() == old(Abs()).(buffers := old(Views()) - {name}, totalBuffers := old(totalBuffers) - 1)
    {
      ghost var before := Views();
      buffers := buffers - {name};
      totalBuffers := totalBuffers - 1;
      assert Views() == before - {name};
    }

    /** The names are gathered first, in whatever order the map lists them, then flushed one by one. */
    method ForceFlushAll(now: int) returns (ghost order: seq<string>)
      requires Valid()
      modifies this`stored, this`ledger, this`totalFlushes, this`processed, repr
      ensures Valid() && (forall k :: k in buffers ==> k in order)
      ensures Abs() == FlushEach(old(Abs()), order, now)
    {
      var names := [];
      var todo := buffers.Keys;
      while todo != {}
        invariant todo <= buffers.Keys && Valid() && Abs() == old(Abs())
        invariant forall k :: k in buffers && k !in todo ==> k in names
      {
        var k :| k in todo;
        todo := todo - {k};
        names := names + [k];
      }
      order := names;
      FlushNames(names, now);
    }

    method FlushNames(names: seq<string>, now: int)
      requires Valid()
      modifies this`stored, this`ledger, this`totalFlushes, this`processed, repr
      ensures Valid() && Abs() == FlushEach(old(Abs()), names, now)
    {
      for i := 0 to |names|
        invariant Valid() && Abs() == FlushEach(old(Abs()), names[..i], now)
      {
        var _ := FlushOne(names[i], now);
        assert names[..i + 1][..i] == names[..i];
      }
      assert names[..|names|] == names;
    }

    /** due: the buffers whose strategies answered that a flush is needed, in the order they were listed. */
    method CheckAndFlushBuffers(due: seq<string>, now: int)
      requires Valid() && forall k :: k in due ==> k in buffers
      modifies this`stored, this`ledger, this`totalFlushes, this`processed, repr
      ensures Valid()
      ensures Abs() == FlushEach(old(Abs()),
                                 due[..if |due| < maxConcurrentFlushes then |due| else maxConcurrentFlushes], now)
    {
      var flushes := 0;
      for i := 0 to |due|
        invariant Valid() && flushes == (if i < maxConcurrentFlushes then i else maxConcurrentFlushes)
        invariant Abs() == FlushEach(old(Abs()), due[..flushes], now)
      {
        if flushes >= maxConcurrentFlushes {
          break;
        }
        var ok := FlushOne(due[i], now);
        assert due[..i + 1][..i] == due[..i];
        if ok {
          flushes := flushes + 1;
        }
      }
    }
  }
}
