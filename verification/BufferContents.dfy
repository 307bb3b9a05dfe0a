/** Which items each buffering strategy holds, drops and hands over, stated on the items that arrived. */
module BufferContents {
  import opened Folding
  import opened BufferStrategies

  /** The items that arrived since the last flush. */
  function SinceFlush(c: Config, ops: seq<StrategyOp>): seq<Item> {
    if ops == [] then []
    else
      var front := ops[..|ops| - 1];
      match ops[|ops| - 1]
      case Adding(metric, priority, now) =>
        SinceFlush(c, front) + [Arrival(HistoryOf(c, front).strategy, metric, priority, now)]
      case Emptying(_) => []
  }

  /** An unfilled kind stands for the fixed-size one. */
  predicate FixedSized(c: Config) {
    c.kind.FixedSize? || c.kind.CompressionBased?
  }

  /** A full buffer of this configuration gives up its oldest item for a new one. */
  predicate KeepsNewest(c: Config) {
    || c.kind.TimeBased? || c.kind.Adaptive?
    || (FixedSized(c) && (c.overflow.DropOldest? || c.overflow.Compress? || c.overflow.FlushImmediately?
                          || c.overflow.BlockUntilSpace?))
  }

  /** A full buffer of this configuration refuses a new item. */
  predicate KeepsOldest(c: Config) {
    FixedSized(c) && (c.overflow.DropNewest? || c.overflow.DropLowestPriority?)
  }

  /** How many items a refusing buffer holds: never more than the ring can. */
  function RefusingRoom(c: Config): nat {
    if c.overflow.DropNewest? && c.maxSize < RingLimit(c.maxSize) then c.maxSize else RingLimit(c.maxSize)
  }

  lemma LastSlides(xs: seq<Item>, x: Item, n: nat)
    ensures var w := Last(xs, n);
            Last(xs + [x], n) == if |w| < n then w + [x] else if n == 0 then [] else w[1..] + [x]
  {
  }

  lemma NewestStep(s: Strategy, since: seq<Item>, metric: int, priority: nat, now: int)
    requires KeepsNewest(s.config) && s.items == Last(since, RingLimit(s.config.maxSize))
    ensures Add(s, metric, priority, now).strategy.items
         == Last(since + [Arrival(s, metric, priority, now)], RingLimit(s.config.maxSize))
  {
    LastSlides(since, Arrival(s, metric, priority, now), RingLimit(s.config.maxSize));
  }

  /** A buffer that makes room for new items holds the latest of those that arrived since the last flush, in order. */
  lemma {:induction false} NewestKept(c: Config, ops: seq<StrategyOp>)
    requires Buildable(c) && KeepsNewest(c)
    ensures HistoryOf(c, ops).strategy.items == Last(SinceFlush(c, ops), RingLimit(c.maxSize))
  {
    HistoryIsNumbered(c, ops);
    if ops == [] {
    } else {
      var front := ops[..|ops| - 1];
      HistoryIsNumbered(c, front);
      NewestKept(c, front);
      match ops[|ops| - 1] {
        case Adding(metric, priority, now) =>
          NewestStep(HistoryOf(c, front).strategy, SinceFlush(c, front), metric, priority, now);
        case Emptying(now) => FlushConserves(HistoryOf(c, front).strategy, now);
      }
    }
  }

  function First(xs: seq<Item>, n: nat): seq<Item> {
    if |xs| <= n then xs else xs[..n]
  }

  lemma OldestStep(s: Strategy, since: seq<Item>, metric: int, priority: nat, now: int)
    requires KeepsOldest(s.config) && s.items == First(since, RefusingRoom(s.config))
    ensures Add(s, metric, priority, now).strategy.items
         == First(since + [Arrival(s, metric, priority, now)], RefusingRoom(s.config))
  {
  }

  /** A buffer that refuses new items holds the first of those that arrived since the last flush, in order. */
  lemma {:induction false} OldestKept(c: Config, ops: seq<StrategyOp>)
    requires Buildable(c) && KeepsOldest(c)
    ensures HistoryOf(c, ops).strategy.items == First(SinceFlush(c, ops), RefusingRoom(c))
  {
    if ops == [] {
    } else {
      var front := ops[..|ops| - 1];
      HistoryIsNumbered(c, front);
      OldestKept(c, front);
      match ops[|ops| - 1] {
        case Adding(metric, priority, now) =>
          OldestStep(HistoryOf(c, front).strategy, SinceFlush(c, front), metric, priority, now);
        case Emptying(now) => FlushConserves(HistoryOf(c, front).strategy, now);
      }
    }
  }

  /** The immediate kind never holds an item, nor hands one over. */
  lemma {:induction false} ImmediateHoldsNothing(c: Config, ops: seq<StrategyOp>, now: int)
    requires c.kind.Immediate?
    ensures HistoryOf(c, ops).strategy == NewStrategy(c) && Flush(NewStrategy(c), now).flushed == []
  {
    if ops == [] {
    } else {
      ImmediateHoldsNothing(c, ops[..|ops| - 1], now);
    }
  }

  // ---------- flushing ----------

  /** A fixed-size buffer hands over exactly the items not older than the maximal age, and loses exactly the others. */
  lemma FixedSizeFlushesByAge(s: Strategy, now: int, x: Item)
    requires FixedSized(s.config)
    ensures x in Flush(s, now).flushed <==> x in s.items && now - x.timestamp <= s.config.maxAge
    ensures x in Flush(s, now).lost <==> x in s.items && now - x.timestamp > s.config.maxAge
  {
    FilterMember(Fresh(s.config, now), s.items, x);
    FilterMember(Stale(s.config, now), s.items, x);
  }

  /** The time-based and adaptive kinds hand over all they hold, in order, however old. */
  lemma OthersFlushAll(s: Strategy, now: int)
    requires s.config.kind.TimeBased? || s.config.kind.Adaptive?
    ensures Flush(s, now).flushed == s.items && Flush(s, now).lost == []
  {
  }

  // ---------- statistics and sizes ----------

  /** The fixed-size kind that refuses items, and the priority-based one, count exactly the items they lose. */
  lemma LossesCounted(s: Strategy, metric: int, priority: nat, now: int)
    requires WithinLimits(s) && (KeepsOldest(s.config) || s.config.kind.PriorityBased?)
    ensures Add(s, metric, priority, now).counted == |Add(s, metric, priority, now).lost|
  {
  }

  lemma {:induction false} DoublingIsLeast(p: nat, n: nat, q: nat)
    requires IsPow2(p) && IsPow2(q) && p <= q && n <= q
    ensures DoubleUpTo(p, n) <= q
    decreases n - p
  {
    if p >= n {
    } else {
      Pow2Gap(p, q);
      assert (2 * p) / 2 == p;
      DoublingIsLeast(2 * p, n, q);
    }
  }

  lemma {:induction false} Pow2Positive(q: nat)
    requires IsPow2(q)
    ensures q >= 1
  {
  }

  /** The ring's number of slots is the least power of two that is not below the configured maximum. */
  lemma SlotsAreLeastPower(maxSize: nat, q: nat)
    requires IsPow2(q) && maxSize <= q
    ensures IsPow2(NextPowerOfTwo(maxSize)) && maxSize <= NextPowerOfTwo(maxSize) <= q
  {
    Pow2Positive(q);
    DoublingIsPow2(1, maxSize);
    DoublingIsLeast(1, maxSize, q);
  }
}
