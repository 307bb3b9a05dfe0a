/** The buffering strategies: what each keeps, drops and hands over. */
module BufferStrategies {
  import opened Folding
  import opened Sorting

  datatype Kind = Immediate | FixedSize | TimeBased | Adaptive | PriorityBased | CompressionBased

  datatype Overflow = DropOldest | DropNewest | DropLowestPriority | Compress | FlushImmediately | BlockUntilSpace

  datatype Config = Config(kind: Kind, overflow: Overflow, maxSize: nat, threshold: nat, batchSize: nat,
                           flushInterval: int, maxAge: int, minPriority: nat, maxPriority: nat,
                           loadFactor: real, compressionRatio: real)

  predicate Validates(c: Config) {
    && c.maxSize != 0 && c.threshold <= c.maxSize
    && c.flushInterval > 0 && c.maxAge > 0
    && c.minPriority <= c.maxPriority
    && 0.0 < c.loadFactor <= 1.0 && 0.0 < c.compressionRatio <= 1.0
  }

  datatype ConfigError = ZeroSize | ThresholdTooLarge | BadInterval | BadAge | BadPriorities | BadLoadFactor | BadRatio

  /** The checks in their order; the first that fails is reported. */
  method Validate(c: Config) returns (e: seq<ConfigError>)
    ensures |e| <= 1 && (e == [] <==> Validates(c))
    ensures e == [] <==>
              && c.maxSize > 0 && c.threshold <= c.maxSize && c.flushInterval >= 1 && c.maxAge >= 1
              && c.maxPriority >= c.minPriority && 0.0 < c.loadFactor && c.loadFactor <= 1.0
              && 0.0 < c.compressionRatio && c.compressionRatio <= 1.0
    ensures c.maxSize == 0 ==> e == [ZeroSize]
    ensures c.maxSize > 0 && c.threshold > c.maxSize ==> e == [ThresholdTooLarge]
    ensures c.maxSize > 0 && c.threshold <= c.maxSize && c.flushInterval <= 0 ==> e == [BadInterval]
  {
    if c.maxSize == 0 {
      return [ZeroSize];
    }
    if c.threshold > c.maxSize {
      return [ThresholdTooLarge];
    }
    if c.flushInterval <= 0 {
      return [BadInterval];
    }
    if c.maxAge <= 0 {
      return [BadAge];
    }
    if c.minPriority > c.maxPriority {
      return [BadPriorities];
    }
    if c.loadFactor <= 0.0 || c.loadFactor > 1.0 {
      return [BadLoadFactor];
    }
    if c.compressionRatio <= 0.0 || c.compressionRatio > 1.0 {
      return [BadRatio];
    }
    return [];
  }

  datatype Item = Item(metric: int, timestamp: int, priority: nat, number: nat)

  // ---------- ring capacity ----------

  predicate IsPow2(n: nat) {
    n == 1 || (n > 1 && n % 2 == 0 && IsPow2(n / 2))
  }

  /** The first of p, 2p, 4p, ... that reaches n. */
  function DoubleUpTo(p: nat, n: nat): (r: nat)
    requires p >= 1
    ensures r >= p && r >= n
    decreases n - p
  {
    if p >= n then p else DoubleUpTo(2 * p, n)
  }

  function NextPowerOfTwo(n: nat): nat {
    DoubleUpTo(1, n)
  }

  /** A ring of that many slots holds one element less. */
  function RingLimit(maxSize: nat): nat {
    NextPowerOfTwo(maxSize) - 1
  }

  lemma {:induction false} Pow2Gap(p: nat, n: nat)
    requires IsPow2(p) && IsPow2(n) && p < n
    ensures 2 * p <= n
  {
    if p > 1 {
      Pow2Gap(p / 2, n / 2);
    }
  }

  lemma {:induction false} DoublingIsPow2(p: nat, n: nat)
    requires IsPow2(p)
    ensures IsPow2(DoubleUpTo(p, n))
    ensures p <= n && IsPow2(n) ==> DoubleUpTo(p, n) == n
    decreases n - p
  {
    if p < n {
      assert (2 * p) / 2 == p;
      if IsPow2(n) {
        Pow2Gap(p, n);
      }
      DoublingIsPow2(2 * p, n);
    }
  }

  /** The ring can hold the configured number of items exactly when that number is not a power of two. */
  lemma RingHoldsMaximumIff(maxSize: nat)
    requires maxSize >= 1
    ensures RingLimit(maxSize) >= maxSize <==> !IsPow2(maxSize)
  {
    DoublingIsPow2(1, maxSize);
  }

  // ---------- strategies as values ----------

  datatype Strategy = Strategy(config: Config, items: seq<Item>, next: nat)

  /** `lost` are the items that will never be handed over; `counted` is what the overflow statistic adds. */
  datatype AddResult = AddResult(strategy: Strategy, lost: seq<Item>, counted: nat)

  datatype FlushResult = FlushResult(strategy: Strategy, flushed: seq<Item>, lost: seq<Item>)

  /** Any kind without its own class falls back to the fixed-size one. */
  function Effective(c: Config): Kind {
    if c.kind.CompressionBased? then FixedSize else c.kind
  }

  predicate UsesRing(c: Config) {
    !Effective(c).Immediate? && !Effective(c).PriorityBased?
  }

  /** The factory throws for an invalid configuration, and the ring for an impossible batch size. */
  predicate Buildable(c: Config) {
    Validates(c) && (UsesRing(c) ==> 1 <= c.batchSize <= NextPowerOfTwo(c.maxSize))
  }

  predicate Overwrites(c: Config) {
    Effective(c).FixedSize? ==> !c.overflow.DropNewest? && !c.overflow.DropLowestPriority?
  }

  /** Higher priority first, then in order of arrival. */
  predicate Before(x: Item, y: Item) {
    x.priority > y.priority || (x.priority == y.priority && x.number <= y.number)
  }

  function RingWrite(c: Config, items: seq<Item>, x: Item): (seq<Item>, seq<Item>) {
    if |items| < RingLimit(c.maxSize) then (items + [x], [])
    else if !Overwrites(c) || items == [] then (items, [x])
    else (items[1..] + [x], [items[0]])
  }

  function Add(s: Strategy, metric: int, priority: nat, now: int): AddResult {
    var c := s.config;
    var n := |s.items|;
    if Effective(c).Immediate? then AddResult(s, [Item(metric, now, priority, 0)], 0)
    else if Effective(c).PriorityBased? then
      var x := Item(metric, now, priority, s.next);
      if n >= c.maxSize && n > 0 then
        var sorted := Sort(Before, s.items);
        AddResult(Strategy(c, sorted[..n - 1] + [x], s.next + 1), [sorted[n - 1]], 1)
      else AddResult(Strategy(c, s.items + [x], s.next + 1), [], 0)
    else
      var x := Item(metric, now, priority, s.next);
      if Effective(c).FixedSize? && c.overflow.DropNewest? && n >= c.maxSize
      then AddResult(s.(next := s.next + 1), [x], 1)
      else
        var (items, lost) := RingWrite(c, s.items, x);
        var counted := if !Effective(c).FixedSize? then 0
                       else if !Overwrites(c) then |lost|
                       else if n >= c.maxSize then 1 else 0;
        AddResult(Strategy(c, items, s.next + 1), lost, counted)
  }

  function Fresh(c: Config, now: int): Item -> bool {
    (x: Item) => now - x.timestamp <= c.maxAge
  }

  function Stale(c: Config, now: int): Item -> bool {
    (x: Item) => now - x.timestamp > c.maxAge
  }

  function Flush(s: Strategy, now: int): FlushResult {
    var c := s.config;
    if Effective(c).Immediate? then FlushResult(s, [], [])
    else if Effective(c).FixedSize? then
      FlushResult(s.(items := []), Filter(Fresh(c, now), s.items), Filter(Stale(c, now), s.items))
    else if Effective(c).PriorityBased? then FlushResult(s.(items := []), Sort(Before, s.items), [])
    else FlushResult(s.(items := []), s.items, [])
  }

  function NewStrategy(c: Config): Strategy {
    Strategy(c, [], 0)
  }

  ghost predicate WithinLimits(s: Strategy) {
    && Buildable(s.config)
    && (UsesRing(s.config) ==> |s.items| <= RingLimit(s.config.maxSize))
    && (Effective(s.config).PriorityBased? ==> |s.items| <= s.config.maxSize)
    && (Effective(s.config).Immediate? ==> s.items == [])
  }

  // ---------- conservation in one step ----------

  /** How many items a strategy takes before it must lose one. */
  function Room(c: Config): nat {
    if Effective(c).Immediate? then 0
    else if Effective(c).PriorityBased? then c.maxSize
    else if Effective(c).FixedSize? && c.overflow.DropNewest? && c.maxSize < RingLimit(c.maxSize) then c.maxSize
    else RingLimit(c.maxSize)
  }

  lemma RingWriteConserves(c: Config, items: seq<Item>, x: Item)
    requires |items| <= RingLimit(c.maxSize)
    ensures var (kept, lost) := RingWrite(c, items, x);
      && multiset(kept) + multiset(lost) == multiset(items) + multiset{x}
      && (lost == [] <==> |items| < RingLimit(c.maxSize))
      && |kept| <= RingLimit(c.maxSize)
  {
    if |items| > 0 {
      assert items == [items[0]] + items[1..];
    }
  }

  /** The item made of an added metric. */
  function Arrival(s: Strategy, metric: int, priority: nat, now: int): Item {
    Item(metric, now, priority, if Effective(s.config).Immediate? then 0 else s.next)
  }

  lemma RingAddConserves(s: Strategy, metric: int, priority: nat, now: int)
    requires WithinLimits(s) && UsesRing(s.config)
    ensures var r := Add(s, metric, priority, now);
      && multiset(r.strategy.items) + multiset(r.lost)
           == multiset(s.items) + multiset{Arrival(s, metric, priority, now)}
      && |r.strategy.items| <= RingLimit(s.config.maxSize)
      && (r.lost == [] <==> |s.items| < Room(s.config))
  {
    RingWriteConserves(s.config, s.items, Arrival(s, metric, priority, now));
  }

  lemma PriorityAddConserves(s: Strategy, metric: int, priority: nat, now: int)
    requires WithinLimits(s) && Effective(s.config).PriorityBased?
    ensures var r := Add(s, metric, priority, now);
      && multiset(r.strategy.items) + multiset(r.lost)
           == multiset(s.items) + multiset{Arrival(s, metric, priority, now)}
      && |r.strategy.items| <= s.config.maxSize
      && (r.lost == [] <==> |s.items| < Room(s.config))
  {
    if |s.items| >= s.config.maxSize {
      ReplaceLast(Sort(Before, s.items), Arrival(s, metric, priority, now));
    }
  }

  lemma ReplaceLast(sorted: seq<Item>, x: Item)
    requires sorted != []
    ensures var n := |sorted| - 1;
            multiset(sorted[..n] + [x]) + multiset([sorted[n]]) == multiset(sorted) + multiset{x}
  {
    assert sorted == sorted[..|sorted| - 1] + [sorted[|sorted| - 1]];
  }

  /** Adding keeps, or reports lost, every item; it loses one exactly when there is no room. */
  lemma AddConserves(s: Strategy, metric: int, priority: nat, now: int)
    requires WithinLimits(s)
    ensures var r := Add(s, metric, priority, now);
      && multiset(r.strategy.items) + multiset(r.lost)
           == multiset(s.items) + multiset{Arrival(s, metric, priority, now)}
      && (r.lost == [] <==> |s.items| < Room(s.config))
    ensures WithinLimits(Add(s, metric, priority, now).strategy)
  {
    if UsesRing(s.config) {
      RingAddConserves(s, metric, priority, now);
    } else if Effective(s.config).PriorityBased? {
      PriorityAddConserves(s, metric, priority, now);
    }
  }

  lemma {:induction false} FreshOrStale(c: Config, now: int, items: seq<Item>)
    ensures multiset(Filter(Fresh(c, now), items)) + multiset(Filter(Stale(c, now), items)) == multiset(items)
  {
    if items == [] {
    } else {
      var n := |items| - 1;
      FreshOrStale(c, now, items[..n]);
      assert items == items[..n] + [items[n]];
    }
  }

  lemma FlushConserves(s: Strategy, now: int)
    requires WithinLimits(s)
    ensures var r := Flush(s, now);
      && multiset(r.flushed) + multiset(r.lost) == multiset(s.items)
      && r.strategy.items == [] && WithinLimits(r.strategy)
  {
    FreshOrStale(s.config, now, s.items);
  }

  /**
    The overflow statistic of the overwriting fixed-size strategy is right at every fill level exactly
    when the configured size is the ring's limit: a power of two is never counted, others too often.
   */
  lemma OverflowCountedIff(c: Config)
    requires Buildable(c) && Effective(c).FixedSize? && Overwrites(c)
    ensures (forall items: seq<Item>, next: nat, metric: int, priority: nat, now: int ::
               |items| <= RingLimit(c.maxSize) ==>
                 var r := Add(Strategy(c, items, next), metric, priority, now); r.counted == |r.lost|)
       <==> c.maxSize == RingLimit(c.maxSize)
  {
    var limit := RingLimit(c.maxSize);
    forall items: seq<Item>, next: nat, metric: int, priority: nat, now: int | |items| <= limit
      ensures var r := Add(Strategy(c, items, next), metric, priority, now);
              |r.lost| == (if |items| == limit then 1 else 0) && r.counted == (if |items| >= c.maxSize then 1 else 0)
    {
    }
    if c.maxSize != limit {
      var size := if limit < c.maxSize then limit else c.maxSize;
      var items := seq(size, i => Item(0, 0, 0, 0));
      var r := Add(Strategy(c, items, 0), 0, 0, 0);
      assert r.counted != |r.lost|;
    }
  }

  lemma BeforeIsTotal()
    ensures TotalOrder(Before)
  {
  }

  lemma LastOfSorted(sorted: seq<Item>)
    requires sorted != [] && SortedBy(Before, sorted)
    ensures forall y :: y in sorted ==> Before(y, sorted[|sorted| - 1])
  {
  }

  lemma SortedByBefore(items: seq<Item>)
    ensures SortedBy(Before, Sort(Before, items))
  {
    BeforeIsTotal();
    SortSorts(Before, items);
  }

  lemma LastIsLowest(items: seq<Item>)
    requires items != []
    ensures var last := Sort(Before, items)[|items| - 1];
            last in items && forall y :: y in items ==> Before(y, last)
  {
    var sorted := Sort(Before, items);
    SortedByBefore(items);
    LastOfSorted(sorted);
    SameMembers(sorted, items);
    SameMembers(items, sorted);
    assert sorted[|items| - 1] in sorted;
  }

  /** When a full priority buffer makes room, what it drops has the lowest priority, and is the latest such. */
  lemma PriorityDropsLowest(s: Strategy, metric: int, priority: nat, now: int)
    requires WithinLimits(s) && Effective(s.config).PriorityBased? && |s.items| == s.config.maxSize
    ensures var r := Add(s, metric, priority, now);
            |r.lost| == 1 && r.lost[0] in s.items && forall y :: y in s.items ==> Before(y, r.lost[0])
  {
    LastIsLowest(s.items);
  }

  /** A priority buffer hands over what it holds, higher priorities first and in order of arrival within one. */
  lemma PriorityFlushInOrder(s: Strategy, now: int)
    requires Effective(s.config).PriorityBased?
    ensures var flushed := Flush(s, now).flushed;
      && multiset(flushed) == multiset(s.items)
      && (forall i, j :: 0 <= i < j < |flushed| ==> flushed[i].priority >= flushed[j].priority)
      && (forall i, j :: 0 <= i < j < |flushed| && flushed[i].priority == flushed[j].priority ==>
            flushed[i].number <= flushed[j].number)
  {
    SortedByBefore(s.items);
    var flushed := Flush(s, now).flushed;
    assert forall i, j :: 0 <= i < j < |flushed| ==> Before(flushed[i], flushed[j]);
  }

  // ---------- numbers rise with arrival ----------

  datatype StrategyOp = Adding(metric: int, priority: nat, now: int) | Emptying(now: int)

  /** A strategy after some additions and flushes, with everything that arrived. */
  datatype History = History(strategy: Strategy, arrivals: seq<Item>)

  function HistoryOf(c: Config, ops: seq<StrategyOp>): History {
    if ops == [] then History(NewStrategy(c), [])
    else
      var h := HistoryOf(c, ops[..|ops| - 1]);
      match ops[|ops| - 1]
      case Adding(metric, priority, now) =>
        History(Add(h.strategy, metric, priority, now).strategy,
                h.arrivals + [Arrival(h.strategy, metric, priority, now)])
      case Emptying(now) => History(Flush(h.strategy, now).strategy, h.arrivals)
  }

  /** The item number i is the i-th to arrive, and no item is held twice. */
  ghost predicate Numbered(items: seq<Item>, arrivals: seq<Item>) {
    && (forall i :: 0 <= i < |arrivals| ==> arrivals[i].number == i)
    && (forall x :: x in items ==> Arrived(x, arrivals))
    && (forall x :: multiset(items)[x] <= 1)
  }

  lemma OneArrives(items: seq<Item>, x: Item, items': seq<Item>, lost: seq<Item>, arrivals: seq<Item>)
    requires Numbered(items, arrivals) && x.number == |arrivals|
    requires multiset(items') + multiset(lost) == multiset(items) + multiset{x}
    ensures Numbered(items', arrivals + [x])
  {
    var all := arrivals + [x];
    forall y: Item ensures multiset(items')[y] <= 1 ensures y in items' ==> y == x || y in items {
      assert (multiset(items') + multiset(lost))[y] == (multiset(items) + multiset{x})[y];
      assert y in items' ==> multiset(items')[y] > 0;
      assert y == x ==> x !in items;
    }
    assert forall y :: y in items ==> all[y.number] == arrivals[y.number];
  }

  /** In every reachable strategy that buffers at all, numbers are given in order of arrival and identify the items. */
  lemma {:induction false} HistoryIsNumbered(c: Config, ops: seq<StrategyOp>)
    requires Buildable(c) && !Effective(c).Immediate?
    ensures var h := HistoryOf(c, ops);
      && h.strategy.config == c && WithinLimits(h.strategy)
      && h.strategy.next == |h.arrivals| && Numbered(h.strategy.items, h.arrivals)
  {
    if ops == [] {
    } else {
      var h := HistoryOf(c, ops[..|ops| - 1]);
      HistoryIsNumbered(c, ops[..|ops| - 1]);
      match ops[|ops| - 1] {
        case Adding(metric, priority, now) =>
          var r := Add(h.strategy, metric, priority, now);
          AddConserves(h.strategy, metric, priority, now);
          OneArrives(h.strategy.items, Arrival(h.strategy, metric, priority, now),
                     r.strategy.items, r.lost, h.arrivals);
          AddNumbersNext(h.strategy, metric, priority, now);
        case Emptying(now) => FlushConserves(h.strategy, now);
      }
    }
  }

  lemma AddNumbersNext(s: Strategy, metric: int, priority: nat, now: int)
    requires !Effective(s.config).Immediate?
    ensures Add(s, metric, priority, now).strategy.next == s.next + 1
    ensures Add(s, metric, priority, now).strategy.config == s.config
  {
  }

  lemma HeldOnce(items: seq<Item>, i: nat, j: nat)
    requires i < j < |items| && forall x :: multiset(items)[x] <= 1
    ensures items[i] != items[j]
  {
    assert items == items[..j] + items[j..];
    assert items[..j][i] in items[..j] && items[j..][0] in items[j..];
    assert multiset(items)[items[i]] == multiset(items[..j])[items[i]] + multiset(items[j..])[items[i]];
  }

  lemma FlushFollowsNumbers(s: Strategy, arrivals: seq<Item>, now: int, i: nat, j: nat)
    requires Effective(s.config).PriorityBased? && Numbered(s.items, arrivals)
    requires i < j < |Flush(s, now).flushed|
    ensures var x, y := Flush(s, now).flushed[i], Flush(s, now).flushed[j];
      && Arrived(x, arrivals) && Arrived(y, arrivals)
      && (x.priority > y.priority || (x.priority == y.priority && x.number < y.number))
  {
    var flushed := Flush(s, now).flushed;
    PriorityFlushInOrder(s, now);
    SameMembers(flushed, s.items);
    HeldOnce(flushed, i, j);
    assert flushed[i] in flushed && flushed[j] in flushed;
  }

  lemma SameMembers(xs: seq<Item>, ys: seq<Item>)
    requires multiset(xs) == multiset(ys)
    ensures forall x :: x in xs ==> x in ys
  {
    assert forall x :: x in xs ==> x in multiset(xs);
  }

  /** The item is the one that arrived as its number says. */
  predicate Arrived(x: Item, arrivals: seq<Item>) {
    x.number < |arrivals| && x == arrivals[x.number]
  }

  /** A reachable priority buffer hands over each item it holds once: by falling priority, then in order of arrival. */
  lemma PriorityFlushFollowsArrival(c: Config, ops: seq<StrategyOp>, now: int, i: nat, j: nat)
    requires Buildable(c) && Effective(c).PriorityBased?
    requires i < j < |Flush(HistoryOf(c, ops).strategy, now).flushed|
    ensures var h := HistoryOf(c, ops);
            var x, y := Flush(h.strategy, now).flushed[i], Flush(h.strategy, now).flushed[j];
      && Arrived(x, h.arrivals) && Arrived(y, h.arrivals)
      && (x.priority > y.priority || (x.priority == y.priority && x.number < y.number))
  {
    HistoryIsNumbered(c, ops);
    FlushFollowsNumbers(HistoryOf(c, ops).strategy, HistoryOf(c, ops).arrivals, now, i, j);
  }

  // ---------- strategies as objects ----------

  class BufferStrategy {
    const config: Config
    var items: seq<Item>
    var next: nat
    var droppedOverflow: nat
    var droppedExpired: nat

    constructor (config: Config)
      ensures View() == NewStrategy(config) && droppedOverflow == droppedExpired == 0
    {
      this.config := config;
      items, next, droppedOverflow, droppedExpired := [], 0, 0, 0;
    }

    function View(): Strategy
      reads this
    {
      Strategy(config, items, next)
    }

    method AddMetric(metric: int, priority: nat, now: int) returns (ghost lost: seq<Item>)
      modifies this
      ensures var r := Add(old(View()), metric, priority, now);
              View() == r.strategy && lost == r.lost && droppedOverflow == old(droppedOverflow) + r.counted
      ensures droppedExpired == old(droppedExpired)
    {
      if Effective(config).Immediate? {
        lost := [Item(metric, now, priority, 0)];
        return;
      }
      var x := Item(metric, now, priority, next);
      next := next + 1;
      lost := [];
      if Effective(config).PriorityBased? {
        if |items| >= config.maxSize {
          if |items| > 0 {
            items := Sort(Before, items);
            lost := [items[|items| - 1]];
            items := items[..|items| - 1];
            droppedOverflow := droppedOverflow + 1;
          }
        }
        items := items + [x];
      } else {
        AddToRing(x);
        lost := Add(old(View()), metric, priority, now).lost;
      }
    }

    method AddToRing(x: Item)
      requires UsesRing(config) && next == x.number + 1
      modifies this`items, this`droppedOverflow
      ensures var r := Add(Strategy(config, old(items), x.number), x.metric, x.priority, x.timestamp);
              items == r.strategy.items && droppedOverflow == old(droppedOverflow) + r.counted
    {
      var fixed := Effective(config).FixedSize?;
      if fixed && config.overflow.DropNewest? && |items| >= config.maxSize {
        droppedOverflow := droppedOverflow + 1;
        return;
      }
      var wasFull := |items| >= config.maxSize;
      var written := true;
      if |items| < RingLimit(config.maxSize) {
        items := items + [x];
      } else if !Overwrites(config) {
        written := false;
      } else if items != [] {
        items := items[1..] + [x];
      }
      if fixed && (!written || (wasFull && Overwrites(config))) {
        droppedOverflow := droppedOverflow + 1;
      }
    }

    method FlushItems(now: int) returns (flushed: seq<Item>, ghost lost: seq<Item>)
      modifies this
      ensures var r := Flush(old(View()), now); View() == r.strategy && flushed == r.flushed && lost == r.lost
      ensures droppedOverflow == old(droppedOverflow) && droppedExpired == old(droppedExpired) + |lost|
    {
      lost := Flush(View(), now).lost;
      if Effective(config).Immediate? {
        flushed := [];
      } else if Effective(config).PriorityBased? {
        flushed := Sort(Before, items);
        items := [];
      } else if Effective(config).FixedSize? {
        flushed := DropStale(now);
        items := [];
      } else {
        flushed := items;
        items := [];
      }
    }

    method DropStale(now: int) returns (flushed: seq<Item>)
      modifies this`droppedExpired
      ensures flushed == Filter(Fresh(config, now), items)
      ensures droppedExpired == old(droppedExpired) + |Filter(Stale(config, now), items)|
    {
      flushed := [];
      for i := 0 to |items|
        invariant flushed == Filter(Fresh(config, now), items[..i])
        invariant droppedExpired == old(droppedExpired) + |Filter(Stale(config, now), items[..i])|
      {
        assert items[..i + 1] == items[..i] + [items[i]];
        FilterAppend(Fresh(config, now), items[..i], items[i]);
        FilterAppend(Stale(config, now), items[..i], items[i]);
        if now - items[i].timestamp <= config.maxAge {
          flushed := flushed + [items[i]];
        } else {
          droppedExpired := droppedExpired + 1;
        }
      }
      assert items[..|items|] == items;
    }
  }
}
