/** What holds of the central collector over whole runs of delivered batches. */
module CollectorRuns {
  import opened Options
  import opened Folding
  import opened LruCache
  import opened ProfileStats
  import opened CentralCollectors

  // ---------- runs ----------

  datatype Reading = Reading(sample: Sample, time: int)

  type Batch = seq<Reading>

  function SamplesOf(b: Batch): (r: seq<Sample>)
    ensures |r| == |b|
  {
    seq(|b|, i requires 0 <= i < |b| => b[i].sample)
  }

  function TimesOf(b: Batch): (r: seq<int>)
    ensures |r| == |b|
  {
    seq(|b|, i requires 0 <= i < |b| => b[i].time)
  }

  /** Batches received one after the other. */
  ghost predicate Delivered(c: State, batches: seq<Batch>, c': State) {
    if batches == [] then c' == c
    else
      var n := |batches| - 1;
      exists mid :: Delivered(c, batches[..n], mid) && ReceiveBatch(mid, SamplesOf(batches[n]), TimesOf(batches[n]), c')
  }

  function Flatten<T>(xss: seq<seq<T>>): seq<T> {
    if xss == [] then [] else Flatten(xss[..|xss| - 1]) + xss[|xss| - 1]
  }

  lemma SamplesOfConcat(a: Batch, b: Batch)
    ensures SamplesOf(a + b) == SamplesOf(a) + SamplesOf(b)
  {
  }

  // ---------- what every sample keeps, every run keeps ----------

  /** Processing a reading leads from inv with the readings so far to inv with one more; counters do not matter. */
  ghost predicate Inductive(inv: (State, Batch) -> bool) {
    && (forall c, b, r: Reading, c' :: inv(c, b) && ProcessStep(c, r.sample, r.time, c') ==> inv(c', b + [r]))
    && (forall c, b, batches: nat, total: nat ::
          inv(c, b) ==> inv(c.(batches := batches, totalSamples := total), b))
  }

  lemma {:induction false} InvariantOverSamples(inv: (State, Batch) -> bool, c: State, before: Batch, b: Batch,
                                                c': State)
    requires Inductive(inv) && inv(c, before) && ProcessAll(c, SamplesOf(b), TimesOf(b), c')
    ensures inv(c', before + b)
  {
    if b == [] {
      assert before + b == before;
    } else {
      var n := |b| - 1;
      var samples, times := SamplesOf(b), TimesOf(b);
      var mid :| ProcessAll(c, samples[..n], times[..n], mid) && ProcessStep(mid, samples[n], times[n], c');
      assert SamplesOf(b[..n]) == samples[..n] && TimesOf(b[..n]) == times[..n];
      InvariantOverSamples(inv, c, before, b[..n], mid);
      assert before + b == before + b[..n] + [b[n]];
    }
  }

  lemma InvariantOverBatch(inv: (State, Batch) -> bool, c: State, before: Batch, b: Batch, c': State)
    requires Inductive(inv) && inv(c, before) && ReceiveBatch(c, SamplesOf(b), TimesOf(b), c')
    ensures inv(c', before + b)
  {
    if b == [] {
      assert before + b == before;
    } else {
      var start := c.(batches := c.batches + 1, totalSamples := c.totalSamples + |b|);
      InvariantOverSamples(inv, start, before, b, c');
    }
  }

  lemma {:induction false} Invariant(inv: (State, Batch) -> bool, limit: nat, batches: seq<Batch>, c: State)
    requires Inductive(inv) && inv(Initial(limit), []) && Delivered(Initial(limit), batches, c)
    ensures inv(c, Flatten(batches))
  {
    if batches == [] {
    } else {
      var n := |batches| - 1;
      var samples, times := SamplesOf(batches[n]), TimesOf(batches[n]);
      var mid :| Delivered(Initial(limit), batches[..n], mid) && ReceiveBatch(mid, samples, times, c);
      Invariant(inv, limit, batches[..n], mid);
      InvariantOverBatch(inv, mid, Flatten(batches[..n]), batches[n], c);
    }
  }

  // ---------- conservation, whatever the clock does ----------

  ghost function CallsIn(m: Cache<Stats>): nat {
    if m == map[] then 0
    else
      var k :| k in m;
      m[k].value.calls + CallsIn(m - {k})
  }

  lemma {:induction false} CallsInWithout(m: Cache<Stats>, k: string)
    requires k in m
    ensures CallsIn(m) == m[k].value.calls + CallsIn(m - {k})
  {
    var j :| j in m && CallsIn(m) == m[j].value.calls + CallsIn(m - {j});
    if j != k {
      CallsInWithout(m - {j}, k);
      assert m - {j} - {k} == m - {k} - {j};
      CallsInWithout(m - {k}, j);
    }
  }

  lemma CallsInUpdate(m: Cache<Stats>, k: string, s: Slot<Stats>)
    ensures CallsIn(m[k := s]) == (if k in m then CallsIn(m) - m[k].value.calls else CallsIn(m)) + s.value.calls
  {
    CallsInWithout(m[k := s], k);
    if k in m {
      CallsInWithout(m, k);
      assert m[k := s] - {k} == m - {k};
    } else {
      assert m[k := s] - {k} == m;
    }
  }

  /** Nothing is lost: `pending` samples are counted as received but not yet processed. */
  ghost predicate Balanced(c: State, pending: nat) {
    && c.totalSamples == CallsIn(c.cache) + c.evictedCalls + pending
    && c.created == |c.cache| + c.evictions
  }

  lemma AccessAddsOneCall(m: Cache<Stats>, s: Sample, now: int, victim: Option<string>)
    requires victim.Some? ==> s.name !in m && victim.value in m
    ensures CallsIn(Access(m, s.name, EMPTY, Record(s), now, victim)) + EvictedCalls(m, victim) == CallsIn(m) + 1
  {
    var found := if s.name in m then m else Admit(m, s.name, victim);
    AdmitThenUpdate(m, found, s, now, victim);
    CallsInUpdate(found, s.name, Slot(AddSample(found[s.name].value, s), now));
    if s.name !in m {
      match victim {
        case Some(k) =>
          CallsInWithout(m, k);
          CallsInUpdate(m - {k}, s.name, Slot(EMPTY, 0));
        case None =>
          CallsInUpdate(m, s.name, Slot(EMPTY, 0));
      }
    }
  }

  lemma StepBalanced(c: State, s: Sample, now: int, c': State, pending: nat)
    requires Balanced(c, pending + 1) && ProcessStep(c, s, now, c')
    ensures Balanced(c', pending)
  {
    var victim :| Evicts(c.limit, c.cache, s.name, victim) && c' == Process(c, s, now, victim);
    AccessSize(c.cache, s.name, EMPTY, Record(s), now, victim);
    AccessAddsOneCall(c.cache, s, now, victim);
  }

  lemma {:induction false} ProcessAllBalanced(c: State, samples: seq<Sample>, times: seq<int>, c': State, pending: nat)
    requires |samples| == |times|
    requires Balanced(c, pending + |samples|) && ProcessAll(c, samples, times, c')
    ensures Balanced(c', pending)
  {
    if samples == [] {
    } else {
      var n := |samples| - 1;
      var mid :| ProcessAll(c, samples[..n], times[..n], mid) && ProcessStep(mid, samples[n], times[n], c');
      ProcessAllBalanced(c, samples[..n], times[..n], mid, pending + 1);
      StepBalanced(mid, samples[n], times[n], c', pending);
    }
  }

  lemma BatchBalanced(c: State, samples: seq<Sample>, times: seq<int>, c': State)
    requires |samples| == |times| && Balanced(c, 0) && ReceiveBatch(c, samples, times, c')
    ensures Balanced(c', 0)
  {
    if samples != [] {
      ProcessAllBalanced(c.(batches := c.batches + 1, totalSamples := c.totalSamples + |samples|),
                         samples, times, c', 0);
    }
  }

  lemma {:induction false} RunBalanced(limit: nat, batches: seq<Batch>, c: State)
    requires Delivered(Initial(limit), batches, c)
    ensures Balanced(c, 0)
  {
    if batches == [] {
    } else {
      var n := |batches| - 1;
      var samples, times := SamplesOf(batches[n]), TimesOf(batches[n]);
      var mid :| Delivered(Initial(limit), batches[..n], mid) && ReceiveBatch(mid, samples, times, c);
      RunBalanced(limit, batches[..n], mid);
      BatchBalanced(mid, samples, times, c);
    }
  }

  /** The profile aggregates the last samples received of its operation, as many as it has calls. */
  ghost predicate Recent(p: Stats, name: string, xs: seq<Sample>) {
    && 1 <= p.calls <= |Filter(Named(name), xs)|
    && p == Fold(AddSample, EMPTY, Last(Filter(Named(name), xs), p.calls))
  }

  ghost predicate ProfilesRecent(m: Cache<Stats>, xs: seq<Sample>) {
    forall k :: k in m ==> Recent(m[k].value, k, xs)
  }

  lemma RecentAppend(p: Stats, x: Sample, name: string, xs: seq<Sample>)
    requires Recent(p, name, xs) && x.name != name
    ensures Recent(p, name, xs + [x])
  {
    FilterAppend(Named(name), xs, x);
  }

  lemma RecentUpdate(p: Stats, x: Sample, xs: seq<Sample>)
    requires p == EMPTY || Recent(p, x.name, xs)
    ensures Recent(AddSample(p, x), x.name, xs + [x])
  {
    var own := Filter(Named(x.name), xs);
    FilterAppend(Named(x.name), xs, x);
    assert Last(own, 0) == [];
    LastAppend(own, x, p.calls);
    FoldAppend(AddSample, EMPTY, Last(own, p.calls), x);
  }

  lemma AccessRecent(m: Cache<Stats>, xs: seq<Sample>, x: Sample, now: int, victim: Option<string>)
    requires ProfilesRecent(m, xs)
    ensures ProfilesRecent(Access(m, x.name, EMPTY, Record(x), now, victim), xs + [x])
  {
    var m' := Access(m, x.name, EMPTY, Record(x), now, victim);
    RecentUpdate(if x.name in m then m[x.name].value else EMPTY, x, xs);
    forall k | k in m' && k != x.name ensures Recent(m'[k].value, k, xs + [x]) {
      RecentAppend(m[k].value, x, k, xs);
    }
  }

  /**
    At any clock readings, evictions or not: a stored profile aggregates exactly the last samples received
    of its operation, as many as it has calls.
   */
  lemma StoredProfilesAreRecent(limit: nat, batches: seq<Batch>, c: State)
    requires Delivered(Initial(limit), batches, c)
    ensures ProfilesRecent(c.cache, SamplesOf(Flatten(batches)))
  {
    var inv := (c: State, b: Batch) => ProfilesRecent(c.cache, SamplesOf(b));
    forall c, b, r: Reading, c' | inv(c, b) && ProcessStep(c, r.sample, r.time, c') ensures inv(c', b + [r]) {
      var victim :| Evicts(c.limit, c.cache, r.sample.name, victim) && c' == Process(c, r.sample, r.time, victim);
      SamplesOfConcat(b, [r]);
      assert SamplesOf([r]) == [r.sample];
      AccessRecent(c.cache, SamplesOf(b), r.sample, r.time, victim);
    }
    assert inv(Initial(limit), []);
    Invariant(inv, limit, batches, c);
  }

  /**
    Between batches, for any clock readings at all: samples received = calls in stored profiles + calls in
    evicted profiles, profiles created = profiles stored + evictions, and each stored profile aggregates
    exactly the last samples received of its operation.
   */
  lemma NothingIsLost(limit: nat, batches: seq<Batch>, c: State)
    requires Delivered(Initial(limit), batches, c)
    ensures c.totalSamples == CallsIn(c.cache) + c.evictedCalls && c.created == |c.cache| + c.evictions
    ensures ProfilesRecent(c.cache, SamplesOf(Flatten(batches)))
  {
    RunBalanced(limit, batches, c);
    StoredProfilesAreRecent(limit, batches, c);
  }

  /** Every stored profile's figures are consistent; the average needs a non-negative total that fits 64 bits. */
  lemma StoredProfilesConsistent(limit: nat, batches: seq<Batch>, c: State, name: string)
    requires Delivered(Initial(limit), batches, c) && name in c.cache
    ensures var p := c.cache[name].value;
      && p.calls >= 1 && p.errors <= p.calls
      && p.min * p.calls <= p.total <= p.max * p.calls
      && (0 <= p.total < TWO63 ==> p.min <= p.avg <= p.max)
  {
    StoredProfilesAreRecent(limit, batches, c);
    var p := c.cache[name].value;
    FoldConsistent(Last(Filter(Named(name), SamplesOf(Flatten(batches))), p.calls));
  }

  lemma FoldConsistent(xs: seq<Sample>)
    requires xs != []
    ensures var p := Fold(AddSample, EMPTY, xs);
      && p.errors <= p.calls
      && p.min * p.calls <= p.total <= p.max * p.calls
      && (0 <= p.total < TWO63 ==> p.min <= p.avg <= p.max)
  {
    AggregatesAreExact(xs);
    TotalBracketed(xs);
    if 0 <= TotalDuration(xs) < TWO63 {
      AverageBracketed(xs);
    }
  }

  /** The collector fits its capacity, and its stamps lie below the clock's maximum. */
  ghost predicate WithinCapacity(c: State, limit: nat) {
    c.limit == limit && StampsBelow(c.cache, MAX_TIME) && |c.cache| <= Capacity(limit)
  }

  lemma StepWithinCapacity(c: State, limit: nat, r: Reading, c': State)
    requires WithinCapacity(c, limit) && r.time < MAX_TIME && ProcessStep(c, r.sample, r.time, c')
    ensures WithinCapacity(c', limit)
  {
    var victim :| Evicts(c.limit, c.cache, r.sample.name, victim) && c' == Process(c, r.sample, r.time, victim);
    AccessKeepsCapacity(limit, c.cache, r.sample.name, EMPTY, Record(r.sample), r.time, victim);
  }

  ghost predicate Readable(b: Batch) {
    forall r :: r in b ==> r.time < MAX_TIME
  }

  lemma StartWithinCapacity(limit: nat)
    ensures WithinCapacity(Initial(limit), limit)
  {
    assert |Initial(limit).cache| == 0;
  }

  lemma ReadingWithinCapacity(c: State, limit: nat, b: Batch, r: Reading, c': State)
    requires (Readable(b) ==> WithinCapacity(c, limit)) && ProcessStep(c, r.sample, r.time, c')
    ensures Readable(b + [r]) ==> WithinCapacity(c', limit)
  {
    assert r in b + [r] && forall q :: q in b ==> q in b + [r];
    if Readable(b + [r]) {
      StepWithinCapacity(c, limit, r, c');
    }
  }

  /**
    No more than max(1, limit - 1) profiles are ever stored, at any readings below the clock's maximum,
    ties and disorder included.
   */
  lemma NeverOverCapacity(limit: nat, batches: seq<Batch>, c: State)
    requires Delivered(Initial(limit), batches, c) && Readable(Flatten(batches))
    ensures |c.cache| <= if limit <= 2 then 1 else limit - 1
  {
    var inv := (c: State, b: Batch) => Readable(b) ==> WithinCapacity(c, limit);
    forall c, b, r: Reading, c' | inv(c, b) && ProcessStep(c, r.sample, r.time, c') ensures inv(c', b + [r]) {
      ReadingWithinCapacity(c, limit, b, r, c');
    }
    StartWithinCapacity(limit);
    Invariant(inv, limit, batches, c);
  }

  // ---------- the list view of a run ----------

  /** The collector without clocks: profiles listed from the most to the least recently sampled. */
  datatype Simple = Simple(limit: nat, items: seq<Item<Stats>>, samples: nat, evictions: nat)

  function SimpleProcess(s: Simple, x: Sample): Simple {
    var cap := Capacity(s.limit);
    s.(items := Promote(cap, s.items, x.name, EMPTY, Record(x)),
       samples := s.samples + 1,
       evictions := if x.name !in Names(s.items) && |s.items| == cap then s.evictions + 1 else s.evictions)
  }

  function SimpleRun(limit: nat, xs: seq<Sample>): Simple {
    Fold(SimpleProcess, Simple(limit, [], 0, 0), xs)
  }

  /** Strictly increasing readings that fit 64 bits. */
  ghost predicate Ticking(b: Batch) {
    && (forall i, j :: 0 <= i < j < |b| ==> b[i].time < b[j].time)
    && (forall i :: 0 <= i < |b| ==> b[i].time < MAX_TIME)
  }

  ghost predicate Mirrors(c: State, s: Simple) {
    && Represents(c.cache, s.items)
    && |s.items| <= Capacity(s.limit)
    && s.limit == c.limit
    && s.evictions == c.evictions
  }

  lemma StepMirrors(c: State, s: Simple, r: Reading, c': State)
    requires Mirrors(c, s) && StampsBelow(c.cache, r.time) && r.time < MAX_TIME
    requires ProcessStep(c, r.sample, r.time, c')
    ensures Mirrors(c', SimpleProcess(s, r.sample))
    ensures forall t :: r.time < t ==> StampsBelow(c'.cache, t)
  {
    var x := r.sample;
    var victim :| Evicts(c.limit, c.cache, x.name, victim) && c' == Process(c, x, r.time, victim);
    AccessRefinesPromote(c.limit, c.cache, s.items, x.name, EMPTY, Record(x), r.time, victim);
  }

  lemma {:induction false} SimpleCounts(s: Simple, xs: seq<Sample>)
    ensures Fold(SimpleProcess, s, xs).samples == s.samples + |xs|
    ensures Fold(SimpleProcess, s, xs).limit == s.limit
  {
    if xs == [] {
    } else {
      SimpleCounts(s, xs[..|xs| - 1]);
    }
  }

  lemma SimpleRunAppend(limit: nat, front: seq<Sample>, x: Sample)
    ensures SimpleRun(limit, front + [x]) == SimpleProcess(SimpleRun(limit, front), x)
    ensures SimpleRun(limit, front).limit == limit
  {
    assert (front + [x])[..|front|] == front;
    SimpleCounts(Simple(limit, [], 0, 0), front);
  }

  lemma {:induction false} ProcessAllKeepsTotals(c: State, samples: seq<Sample>, times: seq<int>, c': State)
    requires |samples| == |times| && ProcessAll(c, samples, times, c')
    ensures c'.totalSamples == c.totalSamples && c'.batches == c.batches && c'.limit == c.limit
  {
    if samples == [] {
    } else {
      var n := |samples| - 1;
      var mid :| ProcessAll(c, samples[..n], times[..n], mid) && ProcessStep(mid, samples[n], times[n], c');
      ProcessAllKeepsTotals(c, samples[..n], times[..n], mid);
    }
  }

  function NonEmpty(batches: seq<Batch>): nat {
    if batches == [] then 0
    else NonEmpty(batches[..|batches| - 1]) + if batches[|batches| - 1] == [] then 0 else 1
  }

  lemma BatchTotals(c: State, b: Batch, c': State)
    requires ReceiveBatch(c, SamplesOf(b), TimesOf(b), c')
    ensures c'.totalSamples == c.totalSamples + |b| && c'.batches == c.batches + (if b == [] then 0 else 1)
  {
    if b != [] {
      var start := c.(batches := c.batches + 1, totalSamples := c.totalSamples + |b|);
      ProcessAllKeepsTotals(start, SamplesOf(b), TimesOf(b), c');
    }
  }

  lemma {:induction false} DeliveryTotals(limit: nat, batches: seq<Batch>, c: State)
    requires Delivered(Initial(limit), batches, c)
    ensures c.totalSamples == |Flatten(batches)| && c.batches == NonEmpty(batches)
  {
    if batches == [] {
    } else {
      var n := |batches| - 1;
      var b := batches[n];
      var mid :| Delivered(Initial(limit), batches[..n], mid) && ReceiveBatch(mid, SamplesOf(b), TimesOf(b), c);
      DeliveryTotals(limit, batches[..n], mid);
      BatchTotals(mid, b, c);
    }
  }

  /** All stamps are earlier than any time after the readings. */
  ghost predicate Past(m: Cache<Stats>, b: Batch) {
    forall t :: (forall r :: r in b ==> r.time < t) ==> StampsBelow(m, t)
  }

  /** The collector is the clockless run over the readings, if they tick. */
  ghost predicate InStep(limit: nat, c: State, b: Batch) {
    Ticking(b) ==> Mirrors(c, SimpleRun(limit, SamplesOf(b))) && Past(c.cache, b)
  }

  lemma TickingLast(b: Batch, r: Reading)
    requires Ticking(b + [r])
    ensures Ticking(b) && r.time < MAX_TIME && forall q :: q in b ==> q.time < r.time
  {
    var all := b + [r];
    assert all[|b|] == r && forall i :: 0 <= i < |b| ==> b[i] == all[i];
  }

  lemma ReadingInStep(limit: nat, c: State, b: Batch, r: Reading, c': State)
    requires InStep(limit, c, b) && ProcessStep(c, r.sample, r.time, c')
    ensures InStep(limit, c', b + [r])
  {
    if Ticking(b + [r]) {
      TickingLast(b, r);
      SamplesOfConcat(b, [r]);
      assert SamplesOf([r]) == [r.sample];
      SimpleRunAppend(limit, SamplesOf(b), r.sample);
      StepMirrors(c, SimpleRun(limit, SamplesOf(b)), r, c');
      assert r in b + [r];
    }
  }

  lemma StartInStep(limit: nat)
    ensures InStep(limit, Initial(limit), [])
  {
    assert SamplesOf([]) == [];
  }

  lemma DeliveryInStep(limit: nat, batches: seq<Batch>, c: State)
    requires Delivered(Initial(limit), batches, c)
    ensures InStep(limit, c, Flatten(batches))
  {
    var inv := (c: State, b: Batch) => InStep(limit, c, b);
    forall c, b, r: Reading, c' | inv(c, b) && ProcessStep(c, r.sample, r.time, c') ensures inv(c', b + [r]) {
      ReadingInStep(limit, c, b, r, c');
    }
    StartInStep(limit);
    Invariant(inv, limit, batches, c);
  }

  /** A run of batches, however they are cut, is the clockless run over all their samples in order. */
  lemma DeliveryMirrors(limit: nat, batches: seq<Batch>, c: State)
    requires Delivered(Initial(limit), batches, c)
    requires Ticking(Flatten(batches))
    ensures Mirrors(c, SimpleRun(limit, SamplesOf(Flatten(batches))))
    ensures c.totalSamples == |Flatten(batches)| && c.batches == NonEmpty(batches)
  {
    DeliveryInStep(limit, batches, c);
    DeliveryTotals(limit, batches, c);
  }

  // ---------- which operations are kept ----------

  function OperationNames(xs: seq<Sample>): (r: seq<string>)
    ensures |r| == |xs|
  {
    seq(|xs|, i requires 0 <= i < |xs| => xs[i].name)
  }

  lemma StepFollowsRecency(s: Simple, x: Sample, seen: seq<string>)
    requires Names(s.items) == Take(ByRecency(seen), Capacity(s.limit))
    ensures Names(SimpleProcess(s, x).items) == Take(ByRecency(seen + [x.name]), Capacity(s.limit))
  {
    PromoteFollowsRecency(Capacity(s.limit), s.items, seen, x.name, EMPTY, Record(x));
  }

  lemma OperationNamesAppend(front: seq<Sample>, x: Sample)
    ensures OperationNames(front + [x]) == OperationNames(front) + [x.name]
  {
  }

  /** The stored operations, most recently sampled first, are the first distinct ones of the history read backwards. */
  ghost predicate FollowsRecency(limit: nat, xs: seq<Sample>) {
    Names(SimpleRun(limit, xs).items) == Take(ByRecency(OperationNames(xs)), Capacity(limit))
  }

  lemma NothingFollowsRecency(limit: nat)
    ensures FollowsRecency(limit, [])
  {
    assert Names(SimpleRun(limit, []).items) == [];
  }

  lemma AppendFollowsRecency(limit: nat, front: seq<Sample>, x: Sample)
    requires FollowsRecency(limit, front)
    ensures FollowsRecency(limit, front + [x])
  {
    SimpleRunAppend(limit, front, x);
    OperationNamesAppend(front, x);
    StepFollowsRecency(SimpleRun(limit, front), x, OperationNames(front));
  }

  lemma LastFollowsRecency(limit: nat, xs: seq<Sample>)
    requires xs != [] && FollowsRecency(limit, xs[..|xs| - 1])
    ensures FollowsRecency(limit, xs)
  {
    var front, x := xs[..|xs| - 1], xs[|xs| - 1];
    assert xs == front + [x];
    AppendFollowsRecency(limit, front, x);
  }

  lemma {:induction false} SimpleFollowsRecency(limit: nat, xs: seq<Sample>)
    ensures FollowsRecency(limit, xs)
  {
    if xs == [] {
      NothingFollowsRecency(limit);
    } else {
      SimpleFollowsRecency(limit, xs[..|xs| - 1]);
      LastFollowsRecency(limit, xs);
    }
  }

  /**
    After any run with a strictly increasing clock, the stored operations are exactly the
    max(1, limit - 1) most recently sampled distinct ones, and there are no more than that many.
   */
  lemma LruKeepsMostRecent(limit: nat, batches: seq<Batch>, c: State, name: string)
    requires Delivered(Initial(limit), batches, c) && Ticking(Flatten(batches))
    ensures var kept := if limit <= 2 then 1 else limit - 1;
      && (name in c.cache <==> AmongMostRecent(OperationNames(SamplesOf(Flatten(batches))), kept, name))
      && |c.cache| <= kept
  {
    var xs := SamplesOf(Flatten(batches));
    DeliveryMirrors(limit, batches, c);
    SimpleFollowsRecency(limit, xs);
    RecencyPrefix(OperationNames(xs), Capacity(limit), name);
    RepresentsSize(c.cache, SimpleRun(limit, xs).items);
  }

  // ---------- how the samples are cut into batches does not matter ----------

  function Profiles(m: Cache<Stats>): map<string, Stats> {
    map k | k in m :: m[k].value
  }

  lemma SameItemsSameProfiles(m: Cache<Stats>, m': Cache<Stats>, l: seq<Item<Stats>>)
    requires Represents(m, l) && Represents(m', l)
    ensures Profiles(m) == Profiles(m')
  {
    assert m.Keys == m'.Keys;
    forall k | k in m ensures m[k].value == m'[k].value {
      assert k in Names(l);
      var i :| 0 <= i < |l| && Names(l)[i] == k;
      assert l[i].name == k;
    }
  }

  /** Two runs over the same samples, cut and timed differently, end with the same profiles and counts. */
  lemma CuttingDoesNotMatter(limit: nat, b1: seq<Batch>, c1: State, b2: seq<Batch>, c2: State)
    requires Delivered(Initial(limit), b1, c1) && Delivered(Initial(limit), b2, c2)
    requires Ticking(Flatten(b1)) && Ticking(Flatten(b2))
    requires SamplesOf(Flatten(b1)) == SamplesOf(Flatten(b2))
    ensures Profiles(c1.cache) == Profiles(c2.cache)
    ensures c1.totalSamples == c2.totalSamples && c1.evictions == c2.evictions
  {
    DeliveryMirrors(limit, b1, c1);
    DeliveryMirrors(limit, b2, c2);
    SameItemsSameProfiles(c1.cache, c2.cache, SimpleRun(limit, SamplesOf(Flatten(b1))).items);
  }

  // ---------- without evictions, the order does not matter either ----------

  function NamesIn(xs: seq<Sample>): set<string> {
    set s | s in xs :: s.name
  }

  /** The stored profiles are the summaries of the samples. */
  ghost predicate SummariesOf(m: Cache<Stats>, xs: seq<Sample>) {
    m.Keys == NamesIn(xs) && forall k :: k in m ==> m[k].value == Summarize(xs, k)
  }

  ghost predicate Summarizes(c: State, xs: seq<Sample>) {
    c.evictions == 0 && SummariesOf(c.cache, xs)
  }

  lemma NamesInAppend(xs: seq<Sample>, x: Sample)
    ensures NamesIn(xs + [x]) == NamesIn(xs) + {x.name}
  {
    assert x in xs + [x];
    assert forall y :: y in xs + [x] <==> y in xs || y == x;
  }

  lemma UpdateSummarizes(m: Cache<Stats>, xs: seq<Sample>, x: Sample, slot: Slot<Stats>)
    requires SummariesOf(m, xs) && slot.value == Summarize(xs + [x], x.name)
    ensures SummariesOf(m[x.name := slot], xs + [x])
  {
    NamesInAppend(xs, x);
    forall k | k in m && k != x.name ensures m[k].value == Summarize(xs + [x], k) {
      SummarizeAppend(xs, x, k);
    }
  }

  lemma AccessSummarizes(m: Cache<Stats>, xs: seq<Sample>, x: Sample, now: int)
    requires SummariesOf(m, xs)
    ensures SummariesOf(Access(m, x.name, EMPTY, Record(x), now, None), xs + [x])
  {
    SummarizeAppend(xs, x, x.name);
    if x.name in m {
      UpdateSummarizes(m, xs, x, Slot(AddSample(m[x.name].value, x), now));
    } else {
      NoneOfName(xs, x.name);
      UpdateSummarizes(m, xs, x, Slot(AddSample(EMPTY, x), now));
    }
  }

  /** With room for every name nothing is evicted, whatever the clock says. */
  lemma RoomStep(c: State, xs: seq<Sample>, x: Sample, now: int, c': State, names: set<string>)
    requires Summarizes(c, xs) && ProcessStep(c, x, now, c')
    requires |names| <= Capacity(c.limit) && NamesIn(xs + [x]) <= names
    ensures Summarizes(c', xs + [x]) && c'.limit == c.limit
  {
    var victim :| Evicts(c.limit, c.cache, x.name, victim) && c' == Process(c, x, now, victim);
    NamesInAppend(xs, x);
    if x.name !in c.cache {
      SubsetSize(c.cache.Keys + {x.name}, names);
      RoomMeansNoVictim(c.limit, c.cache, x.name, victim);
    }
    AccessSummarizes(c.cache, xs, x, now);
  }

  /** Without evictions every stored profile is the summary of its operation's samples, at any clock readings. */
  lemma StoredAreSummaries(limit: nat, batches: seq<Batch>, c: State, names: set<string>)
    requires Delivered(Initial(limit), batches, c)
    requires |names| <= Capacity(limit) && NamesIn(SamplesOf(Flatten(batches))) <= names
    ensures Summarizes(c, SamplesOf(Flatten(batches)))
  {
    var inv := (c: State, b: Batch) =>
      c.limit == limit && (NamesIn(SamplesOf(b)) <= names ==> Summarizes(c, SamplesOf(b)));
    assert SamplesOf([]) == [];
    forall c, b, r: Reading, c' | inv(c, b) && ProcessStep(c, r.sample, r.time, c') ensures inv(c', b + [r]) {
      SamplesOfConcat(b, [r]);
      assert SamplesOf([r]) == [r.sample];
      NamesInAppend(SamplesOf(b), r.sample);
      if NamesIn(SamplesOf(b + [r])) <= names {
        RoomStep(c, SamplesOf(b), r.sample, r.time, c', names);
      }
    }
    assert inv(Initial(limit), []);
    Invariant(inv, limit, batches, c);
  }

  lemma SubsetSize<T>(a: set<T>, b: set<T>)
    requires a <= b
    ensures |a| <= |b|
  {
    assert b == a + (b - a);
  }

  lemma {:induction false} NoneOfName(xs: seq<Sample>, name: string)
    requires forall y :: y in xs ==> y.name != name
    ensures Summarize(xs, name) == EMPTY
  {
    if xs == [] {
    } else {
      NoneOfName(xs[..|xs| - 1], name);
    }
  }

  /**
    With no more distinct operations than the collector can hold nothing is evicted, each operation's
    profile is the summary of its samples, and so any reordering of the samples gives the same profiles,
    at any clock readings, equal ones included.
   */
  lemma ReorderingDoesNotMatter(limit: nat, b1: seq<Batch>, c1: State, b2: seq<Batch>, c2: State, names: set<string>)
    requires Delivered(Initial(limit), b1, c1) && Delivered(Initial(limit), b2, c2)
    requires multiset(SamplesOf(Flatten(b1))) == multiset(SamplesOf(Flatten(b2)))
    requires |names| <= Capacity(limit) && forall s :: s in SamplesOf(Flatten(b1)) ==> s.name in names
    ensures Profiles(c1.cache) == Profiles(c2.cache)
    ensures forall k :: k in c1.cache ==> c1.cache[k].value == Summarize(SamplesOf(Flatten(b1)), k)
    ensures c1.evictions == c2.evictions == 0
  {
    var xs, ys := SamplesOf(Flatten(b1)), SamplesOf(Flatten(b2));
    SameElements(xs, ys);
    StoredAreSummaries(limit, b1, c1, names);
    StoredAreSummaries(limit, b2, c2, names);
    SummarizedAlike(c1.cache, c2.cache, xs, ys);
  }

  lemma SameElements<T>(xs: seq<T>, ys: seq<T>)
    requires multiset(xs) == multiset(ys)
    ensures forall x :: x in xs <==> x in ys
  {
    assert forall x :: x in xs <==> x in multiset(xs);
    assert forall x :: x in ys <==> x in multiset(ys);
  }

  lemma SummarizedAlike(m1: Cache<Stats>, m2: Cache<Stats>, xs: seq<Sample>, ys: seq<Sample>)
    requires multiset(xs) == multiset(ys)
    requires m1.Keys == NamesIn(xs) && m2.Keys == NamesIn(ys)
    requires forall k :: k in m1 ==> m1[k].value == Summarize(xs, k)
    requires forall k :: k in m2 ==> m2[k].value == Summarize(ys, k)
    ensures Profiles(m1) == Profiles(m2)
  {
    SameNames(xs, ys);
    assert m1.Keys == m2.Keys;
    forall k | k in m1 ensures m1[k].value == m2[k].value {
      OrderDoesNotMatter(xs, ys, k);
    }
    SameValues(m1, m2);
  }

  lemma SameNames(xs: seq<Sample>, ys: seq<Sample>)
    requires multiset(xs) == multiset(ys)
    ensures NamesIn(xs) == NamesIn(ys)
  {
    SameElements(xs, ys);
  }

  lemma SameValues(m1: Cache<Stats>, m2: Cache<Stats>)
    requires m1.Keys == m2.Keys && forall k :: k in m1 ==> m1[k].value == m2[k].value
    ensures Profiles(m1) == Profiles(m2)
  {
  }
}
