/** The tagged-metric store: keyed by one string, standing for a (name, tag map) pair. */
module TaggedMetrics {
  import opened TagEncoding

  datatype MetricType = Counter | Gauge | Histogram

  datatype MetricData = MetricData(value: real, kind: MetricType, tags: map<string, string>, lastUpdate: int,
                                   histogram: seq<real>)

  datatype TaggedMetric = TaggedMetric(name: string, value: real, kind: MetricType, tags: map<string, string>,
                                       timestamp: int)

  datatype RecordResult = Recorded | Disabled | EmptyName

  const MAX_HISTOGRAM_SAMPLES: nat := 1000

  function NewData(kind: MetricType, tags: map<string, string>): MetricData {
    MetricData(0.0, kind, tags, 0, [])
  }

  /** The update follows the type of the call; the stored type is that of the first call. */
  function UpdateData(d: MetricData, value: real, kind: MetricType, now: int): MetricData {
    match kind
    case Counter => d.(value := d.value + value, lastUpdate := now)
    case Gauge => d.(value := value, lastUpdate := now)
    case Histogram =>
      d.(value := value, lastUpdate := now,
         histogram := (if |d.histogram| >= MAX_HISTOGRAM_SAMPLES then d.histogram[1..] else d.histogram) + [value])
  }

  // ---------- the intended store ----------

  type MetricId = (string, map<string, string>)

  type Store = map<MetricId, MetricData>

  function StoreRecord(store: Store, id: MetricId, value: real, kind: MetricType, now: int): Store {
    store[id := UpdateData(if id in store then store[id] else NewData(kind, id.1), value, kind, now)]
  }

  /** Every metric of the store is in the table, under its key. */
  ghost predicate Holds(table: map<string, MetricData>, store: Store) {
    forall id: MetricId :: id in store ==> HoldsOne(table, id, store[id])
  }

  ghost predicate HoldsOne(table: map<string, MetricData>, id: MetricId, data: MetricData) {
    && CleanMetric(id.0, id.1) && data.tags == id.1
    && KeyOf(id.0, id.1) in table && table[KeyOf(id.0, id.1)] == data
  }

  /** Every key of the table belongs to a metric of the store. */
  ghost predicate Covered(table: map<string, MetricData>, store: Store) {
    forall k :: k in table ==> exists id: MetricId :: id in store && KeyOf(id.0, id.1) == k
  }

  /** The string-keyed table holds exactly the intended store's metrics, each under its key. */
  ghost predicate Refines(table: map<string, MetricData>, store: Store) {
    Holds(table, store) && Covered(table, store)
  }

  function TableRecord(table: map<string, MetricData>, key: string, tags: map<string, string>, value: real,
                       kind: MetricType, now: int): map<string, MetricData> {
    table[key := UpdateData(if key in table then table[key] else NewData(kind, tags), value, kind, now)]
  }

  lemma RecordInTwo(table: map<string, MetricData>, key: string, tags: map<string, string>, value: real,
                    kind: MetricType, now: int)
    ensures var entered := if key in table then table else table[key := NewData(kind, tags)];
            entered[key := UpdateData(entered[key], value, kind, now)]
            == TableRecord(table, key, tags, value, kind, now)
  {
  }

  lemma KeyKnownIffStored(table: map<string, MetricData>, store: Store, id: MetricId)
    requires Refines(table, store) && CleanMetric(id.0, id.1)
    ensures KeyOf(id.0, id.1) in table <==> id in store
  {
    if KeyOf(id.0, id.1) in table {
      var id' :| id' in store && KeyOf(id'.0, id'.1) == KeyOf(id.0, id.1);
      KeyOfInjective(id.0, id.1, id'.0, id'.1);
    }
  }

  lemma OtherKeysDiffer(store: Store, id: MetricId)
    requires CleanMetric(id.0, id.1) && forall j: MetricId :: j in store ==> CleanMetric(j.0, j.1)
    ensures forall j: MetricId :: j in store && j != id ==> KeyOf(j.0, j.1) != KeyOf(id.0, id.1)
  {
    forall j: MetricId | j in store && j != id ensures KeyOf(j.0, j.1) != KeyOf(id.0, id.1) {
      KeyOfInjective(id.0, id.1, j.0, j.1);
    }
  }

  /** Recording a clean metric under its key is recording it under its name and tags. */
  lemma RecordRefines(table: map<string, MetricData>, store: Store, name: string, tags: map<string, string>,
                      value: real, kind: MetricType, now: int)
    requires Refines(table, store) && CleanMetric(name, tags)
    ensures Refines(TableRecord(table, KeyOf(name, tags), tags, value, kind, now),
                    StoreRecord(store, (name, tags), value, kind, now))
  {
    var id := (name, tags);
    KeyKnownIffStored(table, store, id);
    var d := UpdateData(if id in store then store[id] else NewData(kind, tags), value, kind, now);
    assert forall j: MetricId :: j in store ==> HoldsOne(table, j, store[j]);
    InsertHolds(table, store, id, d);
    InsertCovered(table, store, id, d);
    assert id in store ==> HoldsOne(table, id, store[id]);
  }

  lemma InsertHolds(table: map<string, MetricData>, store: Store, id: MetricId, d: MetricData)
    requires Holds(table, store) && CleanMetric(id.0, id.1) && d.tags == id.1
    ensures Holds(table[KeyOf(id.0, id.1) := d], store[id := d])
  {
    assert forall j: MetricId :: j in store ==> HoldsOne(table, j, store[j]);
    OtherKeysDiffer(store, id);
  }

  lemma InsertCovered(table: map<string, MetricData>, store: Store, id: MetricId, d: MetricData)
    requires Covered(table, store)
    ensures Covered(table[KeyOf(id.0, id.1) := d], store[id := d])
  {
    var table', store' := table[KeyOf(id.0, id.1) := d], store[id := d];
    forall k | k in table' ensures exists j: MetricId :: j in store' && KeyOf(j.0, j.1) == k {
      if k == KeyOf(id.0, id.1) {
        assert id in store';
      } else {
        var j: MetricId :| j in store && KeyOf(j.0, j.1) == k;
        assert j in store';
      }
    }
  }

  // ---------- the store as an object ----------

  class PerformanceMonitor {
    var enabled: bool
    var table: map<string, MetricData>

    constructor ()
      ensures enabled && table == map[]
    {
      enabled, table := true, map[];
    }

    /** entries: the tags in the order the caller's map enumerates them. */
    method RecordMetric(name: string, value: real, kind: MetricType, tags: map<string, string>,
                        entries: seq<Pair>, now: int)
      returns (r: RecordResult)
      requires Enumerates(entries, tags)
      modifies this`table
      ensures r == if !enabled then Disabled else if name == "" then EmptyName else Recorded
      ensures table == if r.Recorded? then TableRecord(old(table), KeyOf(name, tags), tags, value, kind, now)
                       else old(table)
      ensures r.Recorded? ==>
                var key := KeyOf(name, tags); var before := if key in old(table) then old(table)[key].value else 0.0;
                && key in table && table[key].lastUpdate == now
                && table[key].value == (if kind == Counter then before + value else value)
    {
      if !enabled {
        return Disabled;
      }
      if name == "" {
        return EmptyName;
      }
      var key := MakeMetricKey(name, entries);
      KeyOfAny(name, tags, entries);
      RecordInTwo(table, key, tags, value, kind, now);
      GetOrCreate(key, kind, tags);
      UpdateEntry(key, value, kind, now);
      return Recorded;
    }

    method GetOrCreate(key: string, kind: MetricType, tags: map<string, string>)
      modifies this`table
      ensures table == if key in old(table) then old(table) else old(table)[key := NewData(kind, tags)]
    {
      if key !in table {
        table := table[key := NewData(kind, tags)];
      }
    }

    method UpdateEntry(key: string, value: real, kind: MetricType, now: int)
      requires key in table
      modifies this`table
      ensures table == old(table)[key := UpdateData(old(table)[key], value, kind, now)]
    {
      var data := table[key].(lastUpdate := now);
      match kind {
        case Counter =>
          data := data.(value := data.value + value);
        case Gauge =>
          data := data.(value := value);
        case Histogram =>
          data := data.(value := value);
          if |data.histogram| >= MAX_HISTOGRAM_SAMPLES {
            data := data.(histogram := data.histogram[1..]);
          }
          data := data.(histogram := data.histogram + [value]);
      }
      table := table[key := data];
    }

    /** The listing takes the keys in any order; `order` names the one taken. */
    method GetAllTaggedMetrics() returns (r: seq<TaggedMetric>, ghost order: seq<string>)
      ensures IsListing(table, order, r) && |r| == |table|
    {
      r, order := [], [];
      var todo := table.Keys;
      while todo != {}
        invariant todo <= table.Keys && |r| == |order| == |table| - |todo|
        invariant forall i, j :: 0 <= i < j < |order| ==> order[i] != order[j]
        invariant forall i :: 0 <= i < |r| ==>
                    order[i] in table && order[i] !in todo && r[i] == Listed(order[i], table[order[i]])
        invariant forall k :: k in table && k !in todo ==> k in order
      {
        var k :| k in todo;
        todo := todo - {k};
        var name := k;
        var semicolon := FirstIndex(k, ';');
        if semicolon < |k| {
          name := k[..semicolon];
        }
        var data := table[k];
        r := r + [TaggedMetric(name, data.value, data.kind, data.tags, data.lastUpdate)];
        order := order + [k];
      }
    }

    method ClearAllMetrics()
      modifies this`table
      ensures table == map[] && Refines(table, map[])
    {
      table := map[];
    }
  }

  function Listed(key: string, data: MetricData): TaggedMetric {
    TaggedMetric(DecodeName(key), data.value, data.kind, data.tags, data.lastUpdate)
  }

  function Report(id: MetricId, data: MetricData): TaggedMetric {
    TaggedMetric(id.0, data.value, data.kind, id.1, data.lastUpdate)
  }

  /** A listing takes each key once; `order` is the order it took them in. */
  ghost predicate IsListing(table: map<string, MetricData>, order: seq<string>, r: seq<TaggedMetric>) {
    && |r| == |order|
    && (forall i, j :: 0 <= i < j < |order| ==> order[i] != order[j])
    && (forall i :: 0 <= i < |r| ==> order[i] in table && r[i] == Listed(order[i], table[order[i]]))
    && (forall k :: k in table ==> k in order)
  }

  /** A listing of a table that refines the store reports every metric of the store. */
  lemma EveryMetricListed(table: map<string, MetricData>, store: Store, order: seq<string>, r: seq<TaggedMetric>,
                          id: MetricId)
    requires Refines(table, store) && IsListing(table, order, r) && id in store
    ensures exists i :: 0 <= i < |r| && r[i] == Report(id, store[id])
  {
    assert HoldsOne(table, id, store[id]);
    var i :| 0 <= i < |order| && order[i] == KeyOf(id.0, id.1);
    KeyOfInjective(id.0, id.1, id.0, id.1);
    assert r[i] == Report(id, store[id]);
  }

  /** Every entry of the listing carries the name, tags and data of a metric of the store. */
  lemma OnlyMetricsListed(table: map<string, MetricData>, store: Store, order: seq<string>, r: seq<TaggedMetric>,
                          i: nat)
    requires Refines(table, store) && IsListing(table, order, r) && i < |r|
    ensures (r[i].name, r[i].tags) in store && r[i] == Report((r[i].name, r[i].tags), store[(r[i].name, r[i].tags)])
    ensures KeyOf(r[i].name, r[i].tags) == order[i]
  {
    var key := order[i];
    var id: MetricId :| id in store && KeyOf(id.0, id.1) == key;
    assert HoldsOne(table, id, store[id]);
    KeyOfInjective(id.0, id.1, id.0, id.1);
  }

  /** No metric is listed twice. */
  lemma ListedOnce(table: map<string, MetricData>, store: Store, order: seq<string>, r: seq<TaggedMetric>,
                   i: nat, j: nat)
    requires Refines(table, store) && IsListing(table, order, r) && i < j < |r|
    ensures (r[i].name, r[i].tags) != (r[j].name, r[j].tags)
  {
    OnlyMetricsListed(table, store, order, r, i);
    OnlyMetricsListed(table, store, order, r, j);
  }

  // ---------- whole runs ----------

  datatype Op =
    | Record(name: string, tags: map<string, string>, value: real, kind: MetricType, now: int)
    | ClearMetrics

  /** Nameless calls are refused. */
  ghost function TableAfter(ops: seq<Op>): map<string, MetricData> {
    if ops == [] then map[]
    else
      var table := TableAfter(ops[..|ops| - 1]);
      match ops[|ops| - 1]
      case Record(name, tags, value, kind, now) =>
        if name == "" then table else TableRecord(table, KeyOf(name, tags), tags, value, kind, now)
      case ClearMetrics => map[]
  }

  function StoreAfter(ops: seq<Op>): Store {
    if ops == [] then map[]
    else
      var store := StoreAfter(ops[..|ops| - 1]);
      match ops[|ops| - 1]
      case Record(name, tags, value, kind, now) =>
        if name == "" then store else StoreRecord(store, (name, tags), value, kind, now)
      case ClearMetrics => map[]
  }

  ghost predicate CleanRun(ops: seq<Op>) {
    forall i :: 0 <= i < |ops| && ops[i].Record? ==> CleanMetric(ops[i].name, ops[i].tags)
  }

  /** Over any run of clean recordings and clears the string-keyed table is the store keyed by name and tags. */
  lemma {:induction false} RunRefines(ops: seq<Op>)
    requires CleanRun(ops)
    ensures Refines(TableAfter(ops), StoreAfter(ops))
  {
    if ops == [] {
    } else {
      var n := |ops| - 1;
      RunRefines(ops[..n]);
      match ops[n] {
        case Record(name, tags, value, kind, now) =>
          if name != "" {
            RecordRefines(TableAfter(ops[..n]), StoreAfter(ops[..n]), name, tags, value, kind, now);
          }
        case ClearMetrics =>
      }
    }
  }

  /** After any such run, a listing reports exactly the recorded metrics, with their names, tags and data, each once. */
  lemma ListingIsExact(ops: seq<Op>, order: seq<string>, r: seq<TaggedMetric>)
    requires CleanRun(ops) && IsListing(TableAfter(ops), order, r)
    ensures forall m :: m in r <==>
              (m.name, m.tags) in StoreAfter(ops) && m == Report((m.name, m.tags), StoreAfter(ops)[(m.name, m.tags)])
    ensures forall i, j :: 0 <= i < j < |r| ==> (r[i].name, r[i].tags) != (r[j].name, r[j].tags)
  {
    var table, store := TableAfter(ops), StoreAfter(ops);
    RunRefines(ops);
    forall m
      ensures m in r <==> ((m.name, m.tags) in store && m == Report((m.name, m.tags), store[(m.name, m.tags)]))
    {
      if m in r {
        var i :| 0 <= i < |r| && r[i] == m;
        OnlyMetricsListed(table, store, order, r, i);
      }
      if (m.name, m.tags) in store {
        EveryMetricListed(table, store, order, r, (m.name, m.tags));
      }
    }
    forall i, j | 0 <= i < j < |r| ensures (r[i].name, r[i].tags) != (r[j].name, r[j].tags) {
      ListedOnce(table, store, order, r, i, j);
    }
  }
}
