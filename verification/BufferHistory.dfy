/** What the buffer manager holds for a name, stated on the calls that led there. */
module BufferHistory {
  import opened Options
  import opened Folding
  import opened BufferStrategies
  import opened BufferManagers

  /**
    The configuration of the name's buffer, read from the calls: that of the latest accepted configure since
    the name was last removed, or the defaults if an addition made the buffer; None if there is no buffer.
   */
  function ConfigOf(defaults: Config, ops: seq<Op>, name: string): Option<Config> {
    if ops == [] then None
    else
      var before := ConfigOf(defaults, ops[..|ops| - 1], name);
      match ops[|ops| - 1]
      case OpAdd(n, _, _, _) => if n == name && before == None && Buildable(defaults) then Some(defaults) else before
      case OpFlush(_, _) => before
      case OpConfigure(n, c, _) => if n == name && Buildable(c) then Some(c) else before
      case OpRemove(n, _) => if n == name then None else before
  }

  /** A manager's buffers are those the calls say, with the configurations the calls say. */
  ghost predicate Configured(m: Manager, c: Option<Config>, name: string) {
    && (name in m.buffers <==> c.Some?)
    && (name in m.buffers ==> m.buffers[name].config == c.value)
  }

  lemma {:induction false} FlushKeepsConfigs(m: Manager, names: seq<string>, now: int, name: string)
    ensures var m' := FlushEach(m, names, now);
      && m'.defaults == m.defaults && m'.hasStorage == m.hasStorage
      && (name in m'.buffers <==> name in m.buffers)
      && (name in m.buffers ==> m'.buffers[name].config == m.buffers[name].config)
  {
    if names == [] {
    } else {
      FlushKeepsConfigs(m, names[..|names| - 1], now, name);
    }
  }

  lemma CallConfigures(m: Manager, op: Op, c: Option<Config>, name: string)
    requires Configured(m, c, name)
    ensures Configured(Apply(m, op), match op
                                     case OpAdd(n, _, _, _) =>
                                       if n == name && c == None && Buildable(m.defaults) then Some(m.defaults) else c
                                     case OpFlush(_, _) => c
                                     case OpConfigure(n, config, _) =>
                                       if n == name && Buildable(config) then Some(config) else c
                                     case OpRemove(n, _) => if n == name then None else c, name)
    ensures Apply(m, op).defaults == m.defaults && Apply(m, op).hasStorage == m.hasStorage
  {
    if op.OpFlush? {
      FlushKeepsConfigs(m, op.names, op.now, name);
    }
  }

  /**
    Over any run a name has a buffer if and only if the calls say so, and its configuration is that of the
    latest accepted configure since it was last removed, or the defaults if there is none.
   */
  lemma {:induction false} ConfigFollowsCalls(defaults: Config, hasStorage: bool, ops: seq<Op>, name: string)
    ensures var m := RunOf(Initial(defaults, hasStorage), ops);
      && m.defaults == defaults && m.hasStorage == hasStorage
      && (name in m.buffers <==> ConfigOf(defaults, ops, name).Some?)
      && (name in m.buffers ==> m.buffers[name].config == ConfigOf(defaults, ops, name).value)
  {
    if ops == [] {
    } else {
      var n := |ops| - 1;
      ConfigFollowsCalls(defaults, hasStorage, ops[..n], name);
      CallConfigures(RunOf(Initial(defaults, hasStorage), ops[..n]), ops[n], ConfigOf(defaults, ops[..n], name), name);
    }
  }

  /** A configured or removed buffer starts or ends empty. */
  lemma ReplacedIsEmpty(defaults: Config, hasStorage: bool, ops: seq<Op>, name: string)
    requires ops != []
    requires var op := ops[|ops| - 1];
             (op.OpConfigure? && op.name == name && Buildable(op.config)) || (op.OpRemove? && op.name == name)
             || (op.OpFlush? && name in op.names)
    ensures Contents(RunOf(Initial(defaults, hasStorage), ops), name) == []
  {
    var n := |ops| - 1;
    if ops[n].OpFlush? {
      ExactlyOnce(defaults, hasStorage, ops[..n]);
      FlushEmpties(RunOf(Initial(defaults, hasStorage), ops[..n]), ops[n].names, ops[n].now, name);
    }
  }

  lemma {:induction false} FlushEmpties(m: Manager, names: seq<string>, now: int, name: string)
    requires Kept(m) && name in names
    ensures Contents(FlushEach(m, names, now), name) == []
  {
    var k := |names| - 1;
    var mid := FlushEach(m, names[..k], now);
    FlushEachKeeps(m, names[..k], now);
    assert names == names[..k] + [names[k]];
    if names[k] == name {
      if name in mid.buffers {
        EmptyKeeps(mid, name, now);
      }
    } else {
      FlushEmpties(m, names[..k], now, name);
    }
  }

  // ---------- what was given ----------

  /** The metrics, priorities and times that accepted additions gave under the name, in order. */
  function GivenBy(defaults: Config, ops: seq<Op>, name: string): seq<(int, nat, int)> {
    if ops == [] then []
    else
      var front, op := ops[..|ops| - 1], ops[|ops| - 1];
      if op.OpAdd? && op.name == name && (ConfigOf(defaults, front, name).Some? || Buildable(defaults))
      then GivenBy(defaults, front, name) + [(op.metric, op.priority, op.now)]
      else GivenBy(defaults, front, name)
  }

  function Facts(items: seq<Item>): (r: seq<(int, nat, int)>)
    ensures |r| == |items|
  {
    seq(|items|, i requires 0 <= i < |items| => (items[i].metric, items[i].priority, items[i].timestamp))
  }

  lemma {:induction false} FlushGivesNothing(m: Manager, names: seq<string>, now: int, name: string)
    ensures LedgerOf(FlushEach(m, names, now), name).given == LedgerOf(m, name).given
  {
    if names == [] {
    } else {
      FlushGivesNothing(m, names[..|names| - 1], now, name);
    }
  }

  lemma AddGives(m: Manager, op: Op, name: string)
    requires op.OpAdd?
    ensures Facts(LedgerOf(Apply(m, op), name).given)
         == Facts(LedgerOf(m, name).given)
            + if op.name == name && (name in m.buffers || Buildable(m.defaults))
              then [(op.metric, op.priority, op.now)] else []
  {
    assert Facts(LedgerOf(m, name).given) + [] == Facts(LedgerOf(m, name).given);
  }

  /** The items given under a name are, in order, the accepted additions of that name. */
  lemma {:induction false} GivenFollowsCalls(defaults: Config, hasStorage: bool, ops: seq<Op>, name: string)
    ensures Facts(LedgerOf(RunOf(Initial(defaults, hasStorage), ops), name).given) == GivenBy(defaults, ops, name)
  {
    if ops == [] {
    } else {
      var n := |ops| - 1;
      var m, op := RunOf(Initial(defaults, hasStorage), ops[..n]), ops[n];
      GivenFollowsCalls(defaults, hasStorage, ops[..n], name);
      ConfigFollowsCalls(defaults, hasStorage, ops[..n], name);
      if op.OpAdd? {
        AddGives(m, op, name);
      } else if op.OpFlush? {
        FlushGivesNothing(m, op.names, op.now, name);
      }
    }
  }

  // ---------- the flush statistics ----------

  predicate OnlyAddsAndFlushes(ops: seq<Op>) {
    forall i :: 0 <= i < |ops| ==> ops[i].OpAdd? || ops[i].OpFlush?
  }

  /** Flushes that hand something over are counted, with the items they hand over. */
  ghost predicate FlushesCounted(m: Manager) {
    && (m.hasStorage ==> m.processed == |m.stored|)
    && m.totalFlushes <= m.processed && (m.totalFlushes == 0 <==> m.processed == 0)
  }

  lemma OneFlushCounts(m: Manager, name: string, now: int)
    requires FlushesCounted(m)
    ensures FlushesCounted(FlushBuffer(m, name, now))
  {
  }

  lemma {:induction false} FlushesCount(m: Manager, names: seq<string>, now: int)
    requires FlushesCounted(m)
    ensures FlushesCounted(FlushEach(m, names, now))
  {
    if names == [] {
    } else {
      FlushesCount(m, names[..|names| - 1], now);
      OneFlushCounts(FlushEach(m, names[..|names| - 1], now), names[|names| - 1], now);
    }
  }

  /**
    Without reconfiguring or removing, which hand over without counting, the processed items are exactly
    those in storage, and flushes are counted only when they hand something over.
   */
  lemma {:induction false} FlushStatistics(defaults: Config, hasStorage: bool, ops: seq<Op>)
    requires OnlyAddsAndFlushes(ops)
    ensures FlushesCounted(RunOf(Initial(defaults, hasStorage), ops))
    ensures RunOf(Initial(defaults, hasStorage), ops).hasStorage == hasStorage
  {
    ConfigFollowsCalls(defaults, hasStorage, ops, "");
    if ops == [] {
    } else {
      var n := |ops| - 1;
      FlushStatistics(defaults, hasStorage, ops[..n]);
      if ops[n].OpFlush? {
        FlushesCount(RunOf(Initial(defaults, hasStorage), ops[..n]), ops[n].names, ops[n].now);
      }
    }
  }
}
