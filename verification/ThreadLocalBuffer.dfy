/** Per-thread sample buffers that hand their contents to the central collector in batches. */
module ThreadLocalBuffers {
  import opened Folding
  import opened LruCache
  import opened ProfileStats
  import opened CentralCollectors
  import opened CollectorRuns
  import opened Interleavings

  class ThreadLocalBuffer {
    const capacity: nat
    var buffer: seq<Sample>  // grown on first use, then overwritten in place
    var writeIndex: nat
    var collector: CentralCollector?
    var totalRecords: nat
    var totalFlushes: nat
    var autoFlushes: nat

    constructor (capacity: nat, collector: CentralCollector?)
      requires collector != null ==> collector.Valid()
      ensures Valid() && Pending() == []
      ensures this.capacity == capacity && this.collector == collector
    {
      this.capacity, this.collector := capacity, collector;
      buffer, writeIndex := [], 0;
      totalRecords, totalFlushes, autoFlushes := 0, 0, 0;
    }

    ghost predicate Valid()
      reads this, collector
    {
      writeIndex <= |buffer| && writeIndex <= capacity && (collector != null ==> collector.Valid())
    }

    function Pending(): seq<Sample>
      requires writeIndex <= |buffer|
      reads this
    {
      buffer[..writeIndex]
    }

    predicate IsFull()
      reads this
    {
      writeIndex >= capacity
    }

    method Record(sample: Sample) returns (ok: bool)
      requires Valid()
      modifies this`buffer, this`writeIndex, this`totalRecords
      ensures Valid()
      ensures ok <==> |old(Pending())| < capacity
      ensures Pending() == if ok then old(Pending()) + [sample] else old(Pending())
      ensures totalRecords == if ok then old(totalRecords) + 1 else old(totalRecords)
    {
      if IsFull() {
        return false;
      }
      if writeIndex < |buffer| {
        buffer := buffer[writeIndex := sample];
      } else {
        buffer := buffer + [sample];
      }
      writeIndex := writeIndex + 1;
      totalRecords := totalRecords + 1;
      return true;
    }

    /** times: the clock readings taken while the handed-over samples are processed. */
    method Flush(times: seq<int>) returns (flushed: nat)
      requires Valid() && |times| == |Pending()|
      modifies this`writeIndex, this`totalFlushes, collector, if collector != null then collector.repr else {}
      ensures Valid()
      ensures collector != null ==> old(collector.repr) <= collector.repr && fresh(collector.repr - old(collector.repr))
      ensures collector == null ==> flushed == 0 && Pending() == old(Pending()) && totalFlushes == old(totalFlushes)
      ensures collector != null ==> flushed == |old(Pending())| && Pending() == []
      ensures collector != null ==> ReceiveBatch(old(collector.Abs()), old(Pending()), times, collector.Abs())
      ensures collector != null ==>
                totalFlushes == if old(Pending()) == [] then old(totalFlushes) else old(totalFlushes) + 1
    {
      if writeIndex == 0 || collector == null {
        return 0;
      }
      flushed := writeIndex;
      var batch := buffer[..writeIndex];
      collector.ReceiveSamples(batch, times);
      writeIndex := 0;
      totalFlushes := totalFlushes + 1;
    }

    method RecordAutoFlush(sample: Sample, times: seq<int>) returns (ok: bool)
      requires Valid() && |times| == |Pending()|
      modifies this`buffer, this`writeIndex, this`totalRecords, this`totalFlushes, this`autoFlushes
      modifies collector, if collector != null then collector.repr else {}
      ensures Valid()
      ensures collector != null ==> old(collector.repr) <= collector.repr && fresh(collector.repr - old(collector.repr))
      ensures ok <==> AutoFlush(capacity, collector != null, old(Pending()), sample).accepted
      ensures Pending() == AutoFlush(capacity, collector != null, old(Pending()), sample).pending
      ensures collector != null ==>
                var batch := AutoFlush(capacity, true, old(Pending()), sample).batch;
                if batch == [] then collector.Abs() == old(collector.Abs())
                else batch == old(Pending()) && ReceiveBatch(old(collector.Abs()), batch, times, collector.Abs())
      ensures autoFlushes == if |old(Pending())| < capacity then old(autoFlushes) else old(autoFlushes) + 1
      ensures totalRecords == if ok then old(totalRecords) + 1 else old(totalRecords)
      ensures totalFlushes == if AutoFlush(capacity, collector != null, old(Pending()), sample).batch == []
                              then old(totalFlushes) else old(totalFlushes) + 1
    {
      ok := Record(sample);
      if !ok {
        ok := FlushThenRecord(sample, times);
      }
    }

    /** The buffer is full: hand its contents over, if there is a collector, and try again. */
    method FlushThenRecord(sample: Sample, times: seq<int>) returns (ok: bool)
      requires Valid() && |times| == |Pending()| == capacity
      modifies this`buffer, this`writeIndex, this`totalRecords, this`totalFlushes, this`autoFlushes
      modifies collector, if collector != null then collector.repr else {}
      ensures Valid()
      ensures collector != null ==> old(collector.repr) <= collector.repr && fresh(collector.repr - old(collector.repr))
      ensures ok <==> collector != null && capacity >= 1
      ensures Pending() == if ok then [sample] else old(Pending())
      ensures collector != null ==> ReceiveBatch(old(collector.Abs()), old(Pending()), times, collector.Abs())
      ensures autoFlushes == old(autoFlushes) + 1
      ensures totalRecords == if ok then old(totalRecords) + 1 else old(totalRecords)
      ensures totalFlushes == if ok then old(totalFlushes) + 1 else old(totalFlushes)
    {
      var _ := Flush(times);
      autoFlushes := autoFlushes + 1;
      ok := Record(sample);
    }

    /** What the destructor does. */
    method Destroy(times: seq<int>)
      requires Valid() && |times| == |Pending()|
      modifies this`writeIndex, this`totalFlushes, collector, if collector != null then collector.repr else {}
      ensures Valid()
      ensures collector != null ==> ReceiveBatch(old(collector.Abs()), old(Pending()), times, collector.Abs())
    {
      if writeIndex > 0 {
        var _ := Flush(times);
      }
    }
  }

  // ---------- the batching protocol ----------

  datatype Recorded = Recorded(accepted: bool, pending: seq<Sample>, batch: seq<Sample>)

  /** Recording with automatic flush: what stays buffered, and the batch handed over on the way. */
  function AutoFlush(capacity: nat, connected: bool, pending: seq<Sample>, s: Sample): Recorded {
    if |pending| < capacity then Recorded(true, pending + [s], [])
    else if connected && pending != [] then Recorded(true, [s], pending)
    else Recorded(false, pending, [])
  }

  datatype Cut = Cut(batches: seq<seq<Sample>>, pending: seq<Sample>)

  /** One more sample after the given cut. */
  function CutStep(capacity: nat, cut: Cut, x: Sample): Cut {
    var r := AutoFlush(capacity, true, cut.pending, x);
    Cut(if r.batch == [] then cut.batches else cut.batches + [r.batch], r.pending)
  }

  /** A run of automatic recording into an empty connected buffer. */
  function CutRun(capacity: nat, xs: seq<Sample>): Cut {
    if xs == [] then Cut([], [])
    else CutStep(capacity, CutRun(capacity, xs[..|xs| - 1]), xs[|xs| - 1])
  }

  /** With the final flush. */
  function AllBatches(capacity: nat, xs: seq<Sample>): seq<seq<Sample>> {
    var cut := CutRun(capacity, xs);
    if cut.pending == [] then cut.batches else cut.batches + [cut.pending]
  }

  lemma {:induction false} CutSizes(capacity: nat, xs: seq<Sample>)
    requires capacity >= 1
    ensures var cut := CutRun(capacity, xs);
      && (forall i :: 0 <= i < |cut.batches| ==> |cut.batches[i]| == capacity)
      && |cut.pending| <= capacity && (xs != [] ==> cut.pending != [])
  {
    if xs == [] {
    } else {
      CutSizes(capacity, xs[..|xs| - 1]);
    }
  }

  lemma FlattenOneMore(batches: seq<seq<Sample>>, batch: seq<Sample>)
    ensures Flatten(batches + [batch]) == Flatten(batches) + batch
  {
    assert (batches + [batch])[..|batches|] == batches;
  }

  lemma StepPieces(capacity: nat, cut: Cut, x: Sample)
    requires capacity >= 1
    ensures var next := CutStep(capacity, cut, x);
            Flatten(next.batches) + next.pending == Flatten(cut.batches) + cut.pending + [x]
  {
    FlattenOneMore(cut.batches, cut.pending);
  }

  lemma LastPieces(capacity: nat, xs: seq<Sample>, front: Cut)
    requires capacity >= 1 && xs != [] && Flatten(front.batches) + front.pending == xs[..|xs| - 1]
    ensures var cut := CutStep(capacity, front, xs[|xs| - 1]); Flatten(cut.batches) + cut.pending == xs
  {
    StepPieces(capacity, front, xs[|xs| - 1]);
    assert xs == xs[..|xs| - 1] + [xs[|xs| - 1]];
  }

  lemma {:induction false} CutPieces(capacity: nat, xs: seq<Sample>)
    requires capacity >= 1
    ensures Flatten(CutRun(capacity, xs).batches) + CutRun(capacity, xs).pending == xs
  {
    if xs == [] {
    } else {
      CutPieces(capacity, xs[..|xs| - 1]);
      LastPieces(capacity, xs, CutRun(capacity, xs[..|xs| - 1]));
    }
  }

  lemma {:induction false} FlattenLength(batches: seq<seq<Sample>>, size: nat)
    requires forall i :: 0 <= i < |batches| ==> |batches[i]| == size
    ensures |Flatten(batches)| == |batches| * size
  {
    if batches == [] {
    } else {
      var n := |batches| - 1;
      FlattenLength(batches[..n], size);
      assert (n + 1) * size == n * size + size;
    }
  }

  /** Nothing is lost or reordered, and every batch but the last is a full buffer. */
  lemma CutIsFaithful(capacity: nat, xs: seq<Sample>)
    requires capacity >= 1
    ensures var cut := CutRun(capacity, xs);
      && Flatten(cut.batches) + cut.pending == xs
      && (forall i :: 0 <= i < |cut.batches| ==> |cut.batches[i]| == capacity)
      && |xs| == |cut.batches| * capacity + |cut.pending|
      && |cut.pending| <= capacity && (xs != [] ==> cut.pending != [])
  {
    CutSizes(capacity, xs);
    CutPieces(capacity, xs);
    FlattenLength(CutRun(capacity, xs).batches, capacity);
  }

  lemma DivideExactly(q: nat, k: nat, r: nat)
    requires r < k
    ensures (q * k + r) / k == q
  {
    var d := (q * k + r) / k;
    if d < q {
      MulMonotone(d + 1, q, k);
    } else if d > q {
      MulMonotone(q + 1, d, k);
    }
  }

  lemma CeilingCount(k: nat, capacity: nat, rest: nat)
    requires capacity >= 1 && 1 <= rest <= capacity
    ensures k + 1 == (k * capacity + rest + capacity - 1) / capacity
  {
    DivideExactly(k + 1, capacity, rest - 1);
    assert (k + 1) * capacity == k * capacity + capacity;
  }

  lemma LastBatch(capacity: nat, xs: seq<Sample>)
    requires capacity >= 1 && xs != []
    ensures var cut := CutRun(capacity, xs);
      && AllBatches(capacity, xs) == cut.batches + [cut.pending]
      && Flatten(AllBatches(capacity, xs)) == xs
  {
    CutIsFaithful(capacity, xs);
    FlattenOneMore(CutRun(capacity, xs).batches, CutRun(capacity, xs).pending);
  }

  lemma SomeBatchCount(capacity: nat, xs: seq<Sample>)
    requires capacity >= 1 && xs != []
    ensures |AllBatches(capacity, xs)| == (|xs| + capacity - 1) / capacity
    ensures forall i :: 0 <= i < |AllBatches(capacity, xs)| ==> 1 <= |AllBatches(capacity, xs)[i]| <= capacity
  {
    var cut := CutRun(capacity, xs);
    CutIsFaithful(capacity, xs);
    LastBatch(capacity, xs);
    CeilingCount(|cut.batches|, capacity, |cut.pending|);
  }

  lemma BatchCount(capacity: nat, xs: seq<Sample>)
    requires capacity >= 1
    ensures Flatten(AllBatches(capacity, xs)) == xs
    ensures |AllBatches(capacity, xs)| == (|xs| + capacity - 1) / capacity
    ensures forall i :: 0 <= i < |AllBatches(capacity, xs)| ==> 1 <= |AllBatches(capacity, xs)[i]| <= capacity
  {
    if xs == [] {
      assert AllBatches(capacity, xs) == [];
      DivideExactly(0, capacity, capacity - 1);
    } else {
      LastBatch(capacity, xs);
      SomeBatchCount(capacity, xs);
    }
  }

  lemma {:induction false} FlattenSamples(timed: seq<Batch>, batches: seq<seq<Sample>>)
    requires |timed| == |batches|
    requires forall i :: 0 <= i < |batches| ==> SamplesOf(timed[i]) == batches[i] != []
    ensures SamplesOf(Flatten(timed)) == Flatten(batches)
    ensures NonEmpty(timed) == |batches|
  {
    if batches == [] {
      assert SamplesOf(Flatten(timed)) == [];
    } else {
      var n := |batches| - 1;
      FlattenSamples(timed[..n], batches[..n]);
      SamplesOfConcat(Flatten(timed[..n]), timed[n]);
      assert timed[n] != [];
    }
  }

  /**
    Recording n samples with automatic flushing, then flushing, leaves the collector with the profiles,
    sample total and evictions of delivering the same samples directly (in any other cut), and takes
    exactly ceil(n / capacity) batches.
   */
  lemma BatchingIsInvisible(limit: nat, capacity: nat, xs: seq<Sample>, buffered: seq<Batch>, c1: State,
                            direct: seq<Batch>, c2: State)
    requires capacity >= 1
    requires |buffered| == |AllBatches(capacity, xs)|
    requires forall i :: 0 <= i < |buffered| ==> SamplesOf(buffered[i]) == AllBatches(capacity, xs)[i]
    requires SamplesOf(Flatten(direct)) == xs
    requires Delivered(Initial(limit), buffered, c1) && Ticking(Flatten(buffered))
    requires Delivered(Initial(limit), direct, c2) && Ticking(Flatten(direct))
    ensures Profiles(c1.cache) == Profiles(c2.cache)
    ensures c1.totalSamples == c2.totalSamples == |xs| && c1.evictions == c2.evictions
    ensures c1.batches == (|xs| + capacity - 1) / capacity
  {
    BatchCount(capacity, xs);
    FlattenSamples(buffered, AllBatches(capacity, xs));
    CuttingDoesNotMatter(limit, buffered, c1, direct, c2);
    DeliveryMirrors(limit, buffered, c1);
    assert |Flatten(buffered)| == |xs|;
  }

  /** A connected buffer accepts every sample exactly when it has room for at least one. */
  lemma AcceptsAllIffCapacity(capacity: nat, xs: seq<Sample>)
    requires xs != []
    ensures (forall n :: 0 <= n < |xs| ==> AutoFlush(capacity, true, CutRun(capacity, xs[..n]).pending, xs[n]).accepted)
       <==> capacity >= 1
  {
    if capacity >= 1 {
      forall n | 0 <= n < |xs|
        ensures AutoFlush(capacity, true, CutRun(capacity, xs[..n]).pending, xs[n]).accepted
      {
      }
    } else {
      assert !AutoFlush(capacity, true, CutRun(capacity, xs[..0]).pending, xs[0]).accepted;
    }
  }

  /** What a buffer without a collector holds after trying to record the samples. */
  function HeldAlone(capacity: nat, xs: seq<Sample>): seq<Sample> {
    if xs == [] then [] else AutoFlush(capacity, false, HeldAlone(capacity, xs[..|xs| - 1]), xs[|xs| - 1]).pending
  }

  /** Without a collector a buffer keeps the first samples that fit and refuses all others. */
  lemma {:induction false} AloneKeepsFirst(capacity: nat, xs: seq<Sample>)
    ensures HeldAlone(capacity, xs) == if |xs| <= capacity then xs else xs[..capacity]
    ensures xs != [] ==>
              (AutoFlush(capacity, false, HeldAlone(capacity, xs[..|xs| - 1]), xs[|xs| - 1]).accepted
               <==> |xs| <= capacity)
  {
    if xs == [] {
    } else {
      var n := |xs| - 1;
      AloneKeepsFirst(capacity, xs[..n]);
      assert xs == xs[..n] + [xs[n]];
    }
  }

  // ---------- several buffers, one collector ----------

  /** What happens at one buffer: a recording, a flush by hand, or its end, which flushes what is left. */
  datatype Event =
    | Recording(buffer: nat, sample: Sample)
    | Flushing(buffer: nat)
    | Ending(buffer: nat)

  /** Buffers with their pending samples, and the samples the collector has received, by buffer. */
  datatype Fleet = Fleet(capacities: seq<nat>, pending: seq<seq<Sample>>, received: seq<Tagged>)

  function FleetStep(f: Fleet, e: Event): Fleet
    requires |f.capacities| == |f.pending| && e.buffer < |f.pending|
  {
    match e
    case Recording(k, sample) =>
      var r := AutoFlush(f.capacities[k], true, f.pending[k], sample);
      f.(pending := f.pending[k := r.pending], received := f.received + Tag(k, r.batch))
    case Flushing(k) => f.(pending := f.pending[k := []], received := f.received + Tag(k, f.pending[k]))
    case Ending(k) => f.(pending := f.pending[k := []], received := f.received + Tag(k, f.pending[k]))
  }

  ghost predicate Among(capacities: seq<nat>, events: seq<Event>) {
    && (forall e :: e in events ==> e.buffer < |capacities|)
    && (forall i :: 0 <= i < |capacities| ==> capacities[i] >= 1)
  }

  ghost function FleetRun(capacities: seq<nat>, events: seq<Event>): (f: Fleet)
    requires Among(capacities, events)
    ensures |f.pending| == |f.capacities| && f.capacities == capacities
  {
    if events == [] then Fleet(capacities, seq(|capacities|, _ => []), [])
    else FleetStep(FleetRun(capacities, events[..|events| - 1]), events[|events| - 1])
  }

  /** The recorded samples, by buffer, in the order of recording. */
  function Recordings(events: seq<Event>): seq<Tagged> {
    if events == [] then []
    else
      var front, e := Recordings(events[..|events| - 1]), events[|events| - 1];
      if e.Recording? then front + [(e.buffer, e.sample)] else front
  }

  lemma SplitPending(pending: seq<Sample>, k: nat, sample: Sample, r: Recorded, capacity: nat)
    requires r == AutoFlush(capacity, true, pending, sample) && capacity >= 1
    ensures Tag(k, r.batch) + Tag(k, r.pending) == Tag(k, pending) + [(k, sample)]
  {
  }

  lemma SameTail<T>(a: seq<T>, b: seq<T>, c: seq<T>, d: seq<T>, e: seq<T>)
    requires b + c == d + e
    ensures a + b + c == a + d + e
  {
    assert a + b + c == a + (b + c);
    assert a + d + e == a + (d + e);
  }

  lemma ReceivedFrom(received: seq<Tagged>, j: nat, batch: seq<Sample>, k: nat)
    ensures Filter(From(k), received + Tag(j, batch))
         == Filter(From(k), received) + (if j == k then Tag(k, batch) else [])
  {
    FilterConcat(From(k), received, Tag(j, batch));
    FilterTag(k, j, batch);
  }

  /** The samples of buffer k that the collector has or the buffer still holds. */
  function OwnSamples(f: Fleet, k: nat): seq<Tagged>
    requires k < |f.pending|
  {
    Filter(From(k), f.received) + Tag(k, f.pending[k])
  }

  lemma RecordingConserves(f: Fleet, e: Event, k: nat)
    requires |f.capacities| == |f.pending| && e.buffer < |f.pending| && k < |f.pending|
    requires e.Recording? && f.capacities[e.buffer] >= 1
    ensures OwnSamples(FleetStep(f, e), k) == OwnSamples(f, k) + (if e.buffer == k then [(k, e.sample)] else [])
  {
    var r := AutoFlush(f.capacities[e.buffer], true, f.pending[e.buffer], e.sample);
    ReceivedFrom(f.received, e.buffer, r.batch, k);
    if e.buffer == k {
      SplitPending(f.pending[k], k, e.sample, r, f.capacities[k]);
      SameTail(Filter(From(k), f.received), Tag(k, r.batch), Tag(k, r.pending), Tag(k, f.pending[k]), [(k, e.sample)]);
    } else {
      SameTail(Filter(From(k), f.received), [], Tag(k, f.pending[k]), Tag(k, f.pending[k]), []);
    }
  }

  lemma FlushingConserves(f: Fleet, e: Event, k: nat)
    requires |f.capacities| == |f.pending| && e.buffer < |f.pending| && k < |f.pending| && !e.Recording?
    ensures OwnSamples(FleetStep(f, e), k) == OwnSamples(f, k)
  {
    ReceivedFrom(f.received, e.buffer, f.pending[e.buffer], k);
    if e.buffer == k {
      assert Tag(k, []) == [];
      SameTail(Filter(From(k), f.received), Tag(k, f.pending[k]), [], Tag(k, f.pending[k]), []);
    } else {
      SameTail(Filter(From(k), f.received), [], Tag(k, f.pending[k]), Tag(k, f.pending[k]), []);
    }
  }

  /** At every moment, what the collector has of a buffer, then what the buffer holds, is what was recorded there. */
  lemma {:induction false} FleetConserves(capacities: seq<nat>, events: seq<Event>, k: nat)
    requires Among(capacities, events) && k < |capacities|
    ensures OwnSamples(FleetRun(capacities, events), k) == Filter(From(k), Recordings(events))
  {
    if events == [] {
      assert Tag(k, []) == [];
    } else {
      var n := |events| - 1;
      var f, e := FleetRun(capacities, events[..n]), events[n];
      FleetConserves(capacities, events[..n], k);
      if e.Recording? {
        RecordingConserves(f, e, k);
        FilterAppend(From(k), Recordings(events[..n]), (e.buffer, e.sample));
      } else {
        FlushingConserves(f, e, k);
      }
    }
  }

  ghost predicate AllFlushed(f: Fleet) {
    forall k :: 0 <= k < |f.pending| ==> f.pending[k] == []
  }

  /**
    Recording, flushing and ending in any order: once no buffer holds anything, what the collector received
    keeps each buffer's samples, all of them, in order.
   */
  lemma InterleavingKeepsOrder(capacities: seq<nat>, events: seq<Event>, k: nat)
    requires Among(capacities, events) && k < |capacities| && AllFlushed(FleetRun(capacities, events))
    ensures Filter(From(k), FleetRun(capacities, events).received) == Filter(From(k), Recordings(events))
  {
    FleetConserves(capacities, events, k);
    assert Tag(k, []) == [];
  }

  lemma {:induction false} ReceivedTags(capacities: seq<nat>, events: seq<Event>)
    requires Among(capacities, events)
    ensures forall t :: t in FleetRun(capacities, events).received ==> t.0 < |capacities|
    ensures forall t :: t in Recordings(events) ==> t.0 < |capacities|
  {
    if events == [] {
    } else {
      ReceivedTags(capacities, events[..|events| - 1]);
    }
  }

  lemma ReceivedIsPermutation(capacities: seq<nat>, events: seq<Event>)
    requires Among(capacities, events) && AllFlushed(FleetRun(capacities, events))
    ensures multiset(Untag(FleetRun(capacities, events).received)) == multiset(Untag(Recordings(events)))
  {
    var received := FleetRun(capacities, events).received;
    ReceivedTags(capacities, events);
    forall k: nat ensures Filter(From(k), received) == Filter(From(k), Recordings(events)) {
      if k < |capacities| {
        InterleavingKeepsOrder(capacities, events, k);
      } else {
        NoneFrom(k, received);
        NoneFrom(k, Recordings(events));
      }
    }
    SameProjections(received, Recordings(events));
    UntagPermutation(received, Recordings(events));
  }

  lemma UntaggedNames(ts: seq<Tagged>, names: set<string>)
    requires forall t :: t in ts ==> t.1.name in names
    ensures forall x :: x in Untag(ts) ==> x.name in names
  {
    forall x | x in Untag(ts) ensures x.name in names {
      var i :| 0 <= i < |ts| && Untag(ts)[i] == x;
      assert ts[i] in ts;
    }
  }

  lemma SameCount(xs: seq<Sample>, ys: seq<Sample>)
    requires multiset(xs) == multiset(ys)
    ensures |xs| == |ys|
  {
    assert |multiset(xs)| == |multiset(ys)|;
  }

  /** Several buffers leave the collector as direct delivery of what it received from them does. */
  lemma SeveralBuffersDeliver(limit: nat, capacities: seq<nat>, events: seq<Event>, buffered: seq<Batch>, c1: State,
                              direct: seq<Batch>, c2: State)
    requires Among(capacities, events) && AllFlushed(FleetRun(capacities, events))
    requires SamplesOf(Flatten(buffered)) == Untag(FleetRun(capacities, events).received)
    requires SamplesOf(Flatten(direct)) == Untag(FleetRun(capacities, events).received)
    requires Delivered(Initial(limit), buffered, c1) && Ticking(Flatten(buffered))
    requires Delivered(Initial(limit), direct, c2) && Ticking(Flatten(direct))
    ensures Profiles(c1.cache) == Profiles(c2.cache)
    ensures c1.totalSamples == c2.totalSamples == |Recordings(events)| && c1.evictions == c2.evictions
  {
    ReceivedIsPermutation(capacities, events);
    SameCount(Untag(FleetRun(capacities, events).received), Untag(Recordings(events)));
    CuttingDoesNotMatter(limit, buffered, c1, direct, c2);
    DeliveryTotals(limit, buffered, c1);
  }

  /**
    With room for every operation the order in which it received them does not matter either: the profiles
    are those of delivering every sample the moment it is recorded.
   */
  lemma SeveralBuffersWithRoom(limit: nat, capacities: seq<nat>, events: seq<Event>, buffered: seq<Batch>, c1: State,
                               direct: seq<Batch>, c2: State, names: set<string>)
    requires Among(capacities, events) && AllFlushed(FleetRun(capacities, events))
    requires SamplesOf(Flatten(buffered)) == Untag(FleetRun(capacities, events).received)
    requires SamplesOf(Flatten(direct)) == Untag(Recordings(events))
    requires Delivered(Initial(limit), buffered, c1) && Delivered(Initial(limit), direct, c2)
    requires |names| <= Capacity(limit) && forall t :: t in Recordings(events) ==> t.1.name in names
    ensures Profiles(c1.cache) == Profiles(c2.cache) && c1.evictions == c2.evictions == 0
  {
    ReceivedIsPermutation(capacities, events);
    UntaggedNames(Recordings(events), names);
    ReorderingDoesNotMatter(limit, direct, c2, buffered, c1, names);
  }
}
