/** What the tagged-metric store says about a metric, stated on the calls that recorded it. */
module MetricHistory {
  import opened Folding
  import opened TagEncoding
  import opened TaggedMetrics

  /** The calls that recorded the metric since the last clear, in order. */
  function CallsOf(ops: seq<Op>, id: MetricId): seq<Op> {
    if ops == [] then []
    else
      var n := |ops| - 1;
      match ops[n]
      case Record(name, tags, _, _, _) =>
        if (name, tags) == id && name != "" then CallsOf(ops[..n], id) + [ops[n]] else CallsOf(ops[..n], id)
      case ClearMetrics => []
  }

  function SumOf(calls: seq<Op>): real
    requires forall i :: 0 <= i < |calls| ==> calls[i].Record?
  {
    if calls == [] then 0.0 else SumOf(calls[..|calls| - 1]) + calls[|calls| - 1].value
  }

  /** The values of the calls that recorded it as a histogram. */
  function HistogramValues(calls: seq<Op>): seq<real> {
    if calls == [] then []
    else
      var front, last := HistogramValues(calls[..|calls| - 1]), calls[|calls| - 1];
      if last.Record? && last.kind == Histogram then front + [last.value] else front
  }

  ghost predicate AllRecords(calls: seq<Op>) {
    forall i :: 0 <= i < |calls| ==> calls[i].Record?
  }

  /** From call k on there are only counter calls, and the one before, if any, is not one. */
  ghost predicate CountsFrom(calls: seq<Op>, k: nat)
    requires AllRecords(calls)
  {
    && k <= |calls|
    && (forall i :: k <= i < |calls| ==> calls[i].kind == Counter)
    && (k > 0 ==> calls[k - 1].kind != Counter)
  }

  /** The stored value: what the latest gauge or histogram call set, plus the counter calls after it. */
  ghost predicate ValueFollows(value: real, calls: seq<Op>)
    requires AllRecords(calls)
  {
    forall k: nat :: CountsFrom(calls, k) ==> value == (if k > 0 then calls[k - 1].value else 0.0) + SumOf(calls[k..])
  }

  ghost predicate Follows(data: MetricData, id: MetricId, calls: seq<Op>)
    requires calls != [] && AllRecords(calls)
  {
    && data.tags == id.1 && data.kind == calls[0].kind && data.lastUpdate == calls[|calls| - 1].now
    && data.histogram == Last(HistogramValues(calls), 1000)
    && ValueFollows(data.value, calls)
  }

  lemma {:induction false} CallsAreRecords(ops: seq<Op>, id: MetricId)
    ensures AllRecords(CallsOf(ops, id))
  {
    if ops == [] {
    } else {
      CallsAreRecords(ops[..|ops| - 1], id);
    }
  }

  lemma SumAppend(calls: seq<Op>, call: Op)
    requires AllRecords(calls) && call.Record?
    ensures SumOf(calls + [call]) == SumOf(calls) + call.value
  {
    assert (calls + [call])[..|calls|] == calls;
  }

  lemma HistogramAppend(calls: seq<Op>, call: Op)
    ensures HistogramValues(calls + [call])
         == if call.Record? && call.kind == Histogram then HistogramValues(calls) + [call.value]
            else HistogramValues(calls)
  {
    assert (calls + [call])[..|calls|] == calls;
  }

  /** One more value in a window of the last 1000. */
  lemma LastGrows(xs: seq<real>, x: real)
    ensures var w := Last(xs, 1000);
            Last(xs + [x], 1000) == (if |w| >= 1000 then w[1..] else w) + [x]
  {
  }

  /** A counter call adds to what is there. */
  lemma CounterFollows(value: real, calls: seq<Op>, call: Op)
    requires AllRecords(calls) && ValueFollows(value, calls) && call.Record? && call.kind == Counter
    ensures ValueFollows(value + call.value, calls + [call])
  {
    var all := calls + [call];
    forall k: nat | CountsFrom(all, k)
      ensures value + call.value == (if k > 0 then all[k - 1].value else 0.0) + SumOf(all[k..])
    {
      assert k <= |calls|;
      assert CountsFrom(calls, k) by {
        assert forall i :: 0 <= i < |calls| ==> all[i] == calls[i];
      }
      assert all[k..] == calls[k..] + [call];
      SumAppend(calls[k..], call);
    }
  }

  /** A gauge or histogram call replaces it. */
  lemma SettingFollows(calls: seq<Op>, call: Op)
    requires AllRecords(calls) && call.Record? && call.kind != Counter
    ensures ValueFollows(call.value, calls + [call])
  {
    var all := calls + [call];
    forall k: nat | CountsFrom(all, k)
      ensures call.value == (if k > 0 then all[k - 1].value else 0.0) + SumOf(all[k..])
    {
      assert all[|calls|] == call && call.kind != Counter;
      assert k == |all|;
      assert all[k..] == [];
    }
  }

  lemma UpdateFollows(data: MetricData, id: MetricId, calls: seq<Op>, call: Op)
    requires AllRecords(calls) && call.Record?
    requires if calls == [] then data == NewData(call.kind, id.1) else Follows(data, id, calls)
    ensures Follows(UpdateData(data, call.value, call.kind, call.now), id, calls + [call])
  {
    HistogramAppend(calls, call);
    LastGrows(HistogramValues(calls), call.value);
    if call.kind == Counter {
      assert ValueFollows(data.value, calls);
      CounterFollows(data.value, calls, call);
    } else {
      SettingFollows(calls, call);
    }
  }

  /** The store holds exactly the metrics recorded since the last clear, each as its calls left it. */
  ghost predicate StoreFollows(store: Store, ops: seq<Op>, id: MetricId) {
    CallsAreRecords(ops, id);
    && (id in store <==> CallsOf(ops, id) != [])
    && (id in store ==> Follows(store[id], id, CallsOf(ops, id)))
  }

  lemma RecordFollows(store: Store, ops: seq<Op>, id: MetricId)
    requires ops != [] && ops[|ops| - 1].Record? && StoreFollows(store, ops[..|ops| - 1], id)
    requires var op := ops[|ops| - 1]; (op.name, op.tags) == id && op.name != ""
    ensures var op := ops[|ops| - 1]; StoreFollows(StoreRecord(store, id, op.value, op.kind, op.now), ops, id)
  {
    var front, op := ops[..|ops| - 1], ops[|ops| - 1];
    CallsAreRecords(front, id);
    CallsAreRecords(ops, id);
    UpdateFollows(if id in store then store[id] else NewData(op.kind, id.1), id, CallsOf(front, id), op);
  }

  lemma {:induction false} StoreFollowsCalls(ops: seq<Op>, id: MetricId)
    ensures StoreFollows(StoreAfter(ops), ops, id)
  {
    if ops == [] {
    } else {
      var front, op := ops[..|ops| - 1], ops[|ops| - 1];
      StoreFollowsCalls(front, id);
      if op.Record? && (op.name, op.tags) == id && op.name != "" {
        RecordFollows(StoreAfter(front), ops, id);
      }
    }
  }

  /**
    Over any run of clean recordings and clears, a metric recorded since the last clear is listed with the kind
    of its first call and the time of its latest; the value is what the latest gauge or histogram call set plus
    the counter calls since, so the plain sum for a counter; its histogram holds the last 1000 histogram values.
   */
  lemma ListedAsRecorded(ops: seq<Op>, order: seq<string>, r: seq<TaggedMetric>, id: MetricId)
    requires CleanRun(ops) && IsListing(TableAfter(ops), order, r) && CallsOf(ops, id) != []
    ensures AllRecords(CallsOf(ops, id)) && KeyOf(id.0, id.1) in TableAfter(ops)
    ensures var calls := CallsOf(ops, id); var data := TableAfter(ops)[KeyOf(id.0, id.1)];
      && TaggedMetric(id.0, data.value, calls[0].kind, id.1, calls[|calls| - 1].now) in r
      && (calls[|calls| - 1].kind != Counter ==> data.value == calls[|calls| - 1].value)
      && ((forall i :: 0 <= i < |calls| ==> calls[i].kind == Counter) ==> data.value == SumOf(calls))
      && ValueFollows(data.value, calls)
      && data.histogram == Last(HistogramValues(calls), 1000)
  {
    var calls := CallsOf(ops, id);
    CallsAreRecords(ops, id);
    StoreFollowsCalls(ops, id);
    RunRefines(ops);
    assert HoldsOne(TableAfter(ops), id, StoreAfter(ops)[id]);
    ValueCases(StoreAfter(ops)[id].value, calls);
    EveryMetricListed(TableAfter(ops), StoreAfter(ops), order, r, id);
  }

  lemma ValueCases(value: real, calls: seq<Op>)
    requires calls != [] && AllRecords(calls) && ValueFollows(value, calls)
    ensures calls[|calls| - 1].kind != Counter ==> value == calls[|calls| - 1].value
    ensures (forall i :: 0 <= i < |calls| ==> calls[i].kind == Counter) ==> value == SumOf(calls)
  {
    if calls[|calls| - 1].kind != Counter {
      assert CountsFrom(calls, |calls|);
      assert calls[|calls|..] == [];
    } else if forall i :: 0 <= i < |calls| ==> calls[i].kind == Counter {
      assert CountsFrom(calls, 0);
      assert calls[0..] == calls;
    }
  }

  /** Nothing else is listed. */
  lemma OnlyRecordedListed(ops: seq<Op>, order: seq<string>, r: seq<TaggedMetric>, m: TaggedMetric)
    requires CleanRun(ops) && IsListing(TableAfter(ops), order, r) && m in r
    ensures CallsOf(ops, (m.name, m.tags)) != []
  {
    ListingIsExact(ops, order, r);
    StoreFollowsCalls(ops, (m.name, m.tags));
  }
}
