/** Which collectors stay active under load: the highest priorities, fewer of them the higher the load. */
module AdaptiveMonitors {
  import opened Folding
  import opened Sorting

  /** cpu is the reported average usage; a missing collector object reports nothing. */
  datatype Collector = Collector(priority: int, reports: bool, cpu: real)

  type Ranked = (string, int)

  predicate HigherFirst(a: Ranked, b: Ranked) {
    a.1 >= b.1
  }

  function Usage(collectors: map<string, Collector>, name: string): real {
    if name in collectors && collectors[name].reports then collectors[name].cpu else 0.0
  }

  function AddUsage(collectors: map<string, Collector>): (real, string) -> real {
    (sum: real, name: string) => sum + Usage(collectors, name)
  }

  /** The names of the map, each once, in the order the map enumerates them. */
  ghost predicate Enumerates(names: seq<string>, collectors: map<string, Collector>) {
    multiset(names) == multiset(collectors.Keys)
  }

  function Average(collectors: map<string, Collector>, names: seq<string>): real {
    if |names| == 0 then 0.0 else Fold(AddUsage(collectors), 0.0, names) / (|names| as real)
  }

  /** How many of n collectors stay active at the given average load. */
  function Band(n: nat, load: real): nat {
    if load > 80.0 then (if n / 5 > 1 then n / 5 else 1)
    else if load > 60.0 then (if n / 2 > 2 then n / 2 else 2)
    else if load > 40.0 then (if n * 3 / 4 > 3 then n * 3 / 4 else 3)
    else n
  }

  function ActiveCount(n: nat, load: real): nat {
    if Band(n, load) < n then Band(n, load) else n
  }

  class AdaptiveMonitor {
    var collectors: map<string, Collector>

    constructor ()
      ensures collectors == map[]
    {
      collectors := map[];
    }

    /** present: a collector object is given at all. */
    method RegisterCollector(name: string, present: bool, cpu: real) returns (ok: bool)
      modifies this
      ensures ok <==> present && name !in old(collectors)
      ensures collectors == if ok then old(collectors)[name := Collector(0, true, cpu)] else old(collectors)
    {
      if !present {
        return false;
      }
      if name in collectors {
        return false;
      }
      collectors := collectors[name := Collector(0, true, cpu)];
      return true;
    }

    method SetCollectorPriority(name: string, priority: int) returns (found: bool)
      modifies this
      ensures found <==> name in old(collectors)
      ensures collectors == if found then old(collectors)[name := old(collectors)[name].(priority := priority)]
                            else old(collectors)
    {
      if name !in collectors {
        return false;
      }
      collectors := collectors[name := collectors[name].(priority := priority)];
      return true;
    }

    /** order: the enumeration of the map; sort: the library's sort, which may order equal priorities as it likes. */
    method CollectorsByPriority(order: seq<string>, sort: seq<Ranked> -> seq<Ranked>) returns (result: seq<string>)
      requires Enumerates(order, collectors) && Sorts(sort)
      ensures result == ByPriority(collectors, order, sort)
      ensures IsRanking(collectors, result)
    {
      var ranked: seq<Ranked> := [];
      for i := 0 to |order|
        invariant ranked == Rank(collectors, order[..i])
      {
        EnumeratedKeys(order, collectors);
        assert order[i] in order;
        assert order[..i + 1] == order[..i] + [order[i]];
        ranked := ranked + [(order[i], collectors[order[i]].priority)];
      }
      assert order[..|order|] == order;
      var sorted := sort(ranked);
      result := [];
      for i := 0 to |sorted|
        invariant result == NamesOf(sorted[..i])
      {
        assert sorted[..i + 1] == sorted[..i] + [sorted[i]];
        result := result + [sorted[i].0];
      }
      assert sorted[..|sorted|] == sorted;
      ByPriorityRanks(collectors, order, sort);
    }

    method AverageLoad(order: seq<string>) returns (load: real)
      requires Enumerates(order, collectors)
      ensures load == Average(collectors, order)
    {
      load := 0.0;
      for i := 0 to |order|
        invariant load == Fold(AddUsage(collectors), 0.0, order[..i])
      {
        assert order[..i + 1][..i] == order[..i];
        if order[i] in collectors && collectors[order[i]].reports {
          load := load + collectors[order[i]].cpu;
        }
      }
      assert order[..|order|] == order;
      EnumeratedKeys(order, collectors);
      if |collectors| != 0 {
        load := load / (|collectors| as real);
      }
    }

    method ActiveCollectors(order: seq<string>, sort: seq<Ranked> -> seq<Ranked>) returns (active: seq<string>)
      requires Enumerates(order, collectors) && Sorts(sort)
      ensures active == Active(collectors, order, sort)
      ensures IsTopK(collectors, ActiveCount(|collectors|, Average(collectors, order)), active)
      ensures |active| == KeptBySum(|collectors|, UsageSum(collectors, order))
    {
      var sorted := CollectorsByPriority(order, sort);
      var load := AverageLoad(order);
      var limit := ActiveLimit(|sorted|, load);
      ActiveIsFront(collectors, order, sort, limit);
      BandsBySum(collectors, order);
      active := FirstOf(sorted, limit);
    }

    method FirstOf(sorted: seq<string>, limit: nat) returns (active: seq<string>)
      requires limit <= |sorted|
      ensures active == sorted[..limit]
    {
      active := [];
      for i := 0 to limit
        invariant active == sorted[..i]
      {
        active := active + [sorted[i]];
      }
    }

    method ActiveLimit(size: nat, load: real) returns (limit: nat)
      ensures limit == ActiveCount(size, load)
    {
      var count := size;
      if load > 80.0 {
        count := if size / 5 > 1 then size / 5 else 1;
      } else if load > 60.0 {
        count := if size / 2 > 2 then size / 2 else 2;
      } else if load > 40.0 {
        count := if size * 3 / 4 > 3 then size * 3 / 4 else 3;
      }
      limit := if count < size then count else size;
    }
  }

  lemma ActiveIsFront(collectors: map<string, Collector>, order: seq<string>, sort: seq<Ranked> -> seq<Ranked>,
                      limit: nat)
    requires Enumerates(order, collectors) && Sorts(sort)
    requires limit == ActiveCount(|ByPriority(collectors, order, sort)|, Average(collectors, order))
    ensures limit == ActiveCount(|collectors|, Average(collectors, order)) <= |ByPriority(collectors, order, sort)|
    ensures Active(collectors, order, sort) == ByPriority(collectors, order, sort)[..limit]
    ensures IsTopK(collectors, limit, Active(collectors, order, sort))
  {
    ByPriorityRanks(collectors, order, sort);
    EnumeratedKeys(ByPriority(collectors, order, sort), collectors);
    PrefixIsTopK(collectors, ByPriority(collectors, order, sort), limit);
  }

  /** The function sorts, by falling priority; how it orders equal priorities is its own affair. */
  ghost predicate Sorts(sort: seq<Ranked> -> seq<Ranked>) {
    forall xs :: multiset(sort(xs)) == multiset(xs) && SortedBy(HigherFirst, sort(xs))
  }

  function Rank(collectors: map<string, Collector>, names: seq<string>): (r: seq<Ranked>)
    ensures |r| == |names|
  {
    seq(|names|, i requires 0 <= i < |names| =>
      (names[i], if names[i] in collectors then collectors[names[i]].priority else 0))
  }

  function NamesOf(ranked: seq<Ranked>): (r: seq<string>)
    ensures |r| == |ranked|
  {
    seq(|ranked|, i requires 0 <= i < |ranked| => ranked[i].0)
  }

  /** The collectors' names, as the given sort orders them. */
  function ByPriority(collectors: map<string, Collector>, order: seq<string>,
                      sort: seq<Ranked> -> seq<Ranked>): seq<string> {
    NamesOf(sort(Rank(collectors, order)))
  }

  /** The active collectors: a front of the sorted names. */
  ghost function Active(collectors: map<string, Collector>, order: seq<string>,
                        sort: seq<Ranked> -> seq<Ranked>): seq<string> {
    var sorted := ByPriority(collectors, order, sort);
    var count := ActiveCount(|collectors|, Average(collectors, order));
    if count <= |sorted| then sorted[..count] else sorted
  }

  /** Every collector once, by falling priority. */
  ghost predicate IsRanking(collectors: map<string, Collector>, names: seq<string>) {
    && Enumerates(names, collectors)
    && (forall i, j :: 0 <= i < j < |names| ==>
          names[i] in collectors && names[j] in collectors
          && collectors[names[i]].priority >= collectors[names[j]].priority)
  }

  lemma ByPriorityRanks(collectors: map<string, Collector>, order: seq<string>, sort: seq<Ranked> -> seq<Ranked>)
    requires Enumerates(order, collectors) && Sorts(sort)
    ensures IsRanking(collectors, ByPriority(collectors, order, sort))
  {
    var ranked := Rank(collectors, order);
    var sorted := sort(ranked);
    EnumeratedKeys(order, collectors);
    assert forall i :: 0 <= i < |order| ==> order[i] in order;
    RankedMembers(ranked, sorted, collectors);
    NamesOfRanked(order, ranked, sorted, NamesOf(sorted));
  }

  /** k distinct collectors, by falling priority, and no omitted one above any of them. */
  ghost predicate IsTopK(collectors: map<string, Collector>, k: nat, active: seq<string>) {
    && |active| == k
    && (forall i :: 0 <= i < k ==> active[i] in collectors)
    && (forall i, j :: 0 <= i < j < k ==> active[i] != active[j])
    && (forall i, j :: 0 <= i < j < k ==> collectors[active[i]].priority >= collectors[active[j]].priority)
    && (forall n, i :: n in collectors && n !in active && 0 <= i < k ==>
          collectors[n].priority <= collectors[active[i]].priority)
  }

  lemma EnumeratedKeys(names: seq<string>, collectors: map<string, Collector>)
    requires Enumerates(names, collectors)
    ensures forall n :: n in names <==> n in collectors
    ensures |names| == |collectors|
  {
    forall n ensures n in names <==> n in collectors {
      assert n in names <==> n in multiset(names);
    }
    assert |multiset(names)| == |multiset(collectors.Keys)|;
  }

  lemma EnumeratedOnce(names: seq<string>, collectors: map<string, Collector>, i: nat, j: nat)
    requires Enumerates(names, collectors) && i < j < |names|
    ensures names[i] != names[j]
  {
    assert multiset(collectors.Keys)[names[i]] <= 1;
    if names[i] == names[j] {
      CountedTwice(names, i, j);
    }
  }

  lemma CountedTwice(names: seq<string>, i: nat, j: nat)
    requires i < j < |names| && names[i] == names[j]
    ensures multiset(names)[names[i]] >= 2
  {
    var n := names[i];
    assert names == names[..j] + names[j..];
    assert n in names[..j] by {
      assert names[..j][i] == n;
    }
    assert n in names[j..] by {
      assert names[j..][0] == n;
    }
    assert multiset(names) == multiset(names[..j]) + multiset(names[j..]);
  }

  lemma RankedMembers(ranked: seq<Ranked>, sorted: seq<Ranked>, collectors: map<string, Collector>)
    requires multiset(ranked) == multiset(sorted)
    requires forall k :: 0 <= k < |ranked| ==>
               ranked[k].0 in collectors && ranked[k].1 == collectors[ranked[k].0].priority
    ensures forall k :: 0 <= k < |sorted| ==>
              sorted[k].0 in collectors && sorted[k].1 == collectors[sorted[k].0].priority
  {
    forall k | 0 <= k < |sorted|
      ensures sorted[k].0 in collectors && sorted[k].1 == collectors[sorted[k].0].priority
    {
      assert sorted[k] in multiset(ranked);
      var j :| 0 <= j < |ranked| && ranked[j] == sorted[k];
    }
  }

  function AddName(m: multiset<string>, r: Ranked): multiset<string> {
    m + multiset{r.0}
  }

  lemma {:induction false} NamesAsFold(ranked: seq<Ranked>, names: seq<string>)
    requires |ranked| == |names| && forall k :: 0 <= k < |names| ==> names[k] == ranked[k].0
    ensures multiset(names) == Fold(AddName, multiset{}, ranked)
  {
    if names == [] {
    } else {
      var n := |names| - 1;
      NamesAsFold(ranked[..n], names[..n]);
      MultisetSnoc(names[..n], ranked[n].0);
      assert names == names[..n] + [names[n]];
    }
  }

  lemma MultisetSnoc(names: seq<string>, n: string)
    ensures multiset(names + [n]) == multiset(names) + multiset{n}
  {
  }

  lemma NamesOfRanked(order: seq<string>, ranked: seq<Ranked>, sorted: seq<Ranked>, result: seq<string>)
    requires |ranked| == |order| && forall k :: 0 <= k < |order| ==> order[k] == ranked[k].0
    requires |sorted| == |result| && forall k :: 0 <= k < |result| ==> result[k] == sorted[k].0
    requires multiset(ranked) == multiset(sorted)
    ensures multiset(order) == multiset(result)
  {
    NamesAsFold(ranked, order);
    NamesAsFold(sorted, result);
    forall m: multiset<string>, x: Ranked, y: Ranked ensures AddName(AddName(m, x), y) == AddName(AddName(m, y), x) {
    }
    FoldPermutation(AddName, multiset{}, ranked, sorted);
  }

  lemma RankedOnce(collectors: map<string, Collector>, sorted: seq<string>)
    requires Enumerates(sorted, collectors)
    ensures forall i, j :: 0 <= i < j < |sorted| ==> sorted[i] != sorted[j]
  {
    forall i, j | 0 <= i < j < |sorted| ensures sorted[i] != sorted[j] {
      EnumeratedOnce(sorted, collectors, i, j);
    }
  }

  lemma RankedKnown(collectors: map<string, Collector>, sorted: seq<string>)
    requires Enumerates(sorted, collectors)
    ensures forall i :: 0 <= i < |sorted| ==> sorted[i] in collectors
  {
    EnumeratedKeys(sorted, collectors);
    assert forall i :: 0 <= i < |sorted| ==> sorted[i] in sorted;
  }

  lemma LeftOutIsLower(collectors: map<string, Collector>, sorted: seq<string>, k: nat, n: string, i: nat)
    requires IsRanking(collectors, sorted) && i < k <= |sorted| && n in collectors && n !in sorted[..k]
    ensures sorted[i] in collectors && collectors[n].priority <= collectors[sorted[i]].priority
  {
    EnumeratedKeys(sorted, collectors);
    assert forall j :: 0 <= j < k ==> sorted[j] in sorted[..k];
    assert sorted[i] in sorted;
    var j :| 0 <= j < |sorted| && sorted[j] == n;
  }

  lemma PrefixIsTopK(collectors: map<string, Collector>, sorted: seq<string>, k: nat)
    requires IsRanking(collectors, sorted) && k <= |sorted|
    ensures IsTopK(collectors, k, sorted[..k])
  {
    RankedOnce(collectors, sorted);
    RankedKnown(collectors, sorted);
    forall n, i | n in collectors && n !in sorted[..k] && 0 <= i < k
      ensures collectors[n].priority <= collectors[sorted[i]].priority
    {
      LeftOutIsLower(collectors, sorted, k, n, i);
    }
  }

  /** The load does not depend on the order in which the map enumerates its collectors. */
  lemma AverageIgnoresOrder(collectors: map<string, Collector>, a: seq<string>, b: seq<string>)
    requires Enumerates(a, collectors) && Enumerates(b, collectors)
    ensures Average(collectors, a) == Average(collectors, b)
  {
    EnumeratedKeys(a, collectors);
    EnumeratedKeys(b, collectors);
    var f := AddUsage(collectors);
    forall s: real, x: string, y: string ensures f(f(s, x), y) == f(f(s, y), x) {
    }
    FoldPermutation(f, 0.0, a, b);
  }

  lemma BandFalls(n: nat, low: real, high: real)
    requires low <= high
    ensures ActiveCount(n, high) <= ActiveCount(n, low) <= n
    ensures n >= 1 ==> ActiveCount(n, high) >= 1
  {
  }

  ghost predicate DistinctPriorities(collectors: map<string, Collector>) {
    forall m, n :: m in collectors && n in collectors && m != n ==> collectors[m].priority != collectors[n].priority
  }

  lemma TopKPrefix(collectors: map<string, Collector>, k: nat, active: seq<string>, j: nat)
    requires IsTopK(collectors, k, active) && j <= k
    ensures IsTopK(collectors, j, active[..j])
  {
    forall n, i | n in collectors && n !in active[..j] && 0 <= i < j
      ensures collectors[n].priority <= collectors[active[i]].priority
    {
      if n in active {
        var at :| 0 <= at < k && active[at] == n;
        assert forall l :: 0 <= l < j ==> active[l] in active[..j];
      }
    }
  }

  lemma {:induction false} SubsetCount(a: seq<string>, b: seq<string>)
    requires (forall i, j :: 0 <= i < j < |a| ==> a[i] != a[j]) && forall x :: x in a ==> x in b
    ensures |a| <= |b|
  {
    if a == [] {
    } else {
      var n := |a| - 1;
      assert a[n] in a;
      var at :| 0 <= at < |b| && b[at] == a[n];
      var rest := b[..at] + b[at + 1..];
      forall x | x in a[..n] ensures x in rest {
        var i :| 0 <= i < n && a[i] == x;
        assert x in b && x != b[at];
      }
      SubsetCount(a[..n], rest);
    }
  }

  /** Two selections of k collectors agree in their priorities, place by place, however equal priorities are ordered. */
  lemma TopKSamePriorities(collectors: map<string, Collector>, k: nat, a: seq<string>, b: seq<string>, i: nat)
    requires IsTopK(collectors, k, a) && IsTopK(collectors, k, b) && i < k
    ensures collectors[a[i]].priority == collectors[b[i]].priority
  {
    NotAbove(collectors, k, a, b, i);
    NotAbove(collectors, k, b, a, i);
  }

  lemma OneOutside(a: seq<string>, b: seq<string>) returns (j: nat)
    requires (forall i, j :: 0 <= i < j < |a| ==> a[i] != a[j]) && |a| > |b|
    ensures j < |a| && a[j] !in b
  {
    if forall x :: x in a ==> x in b {
      SubsetCount(a, b);
    }
    j :| 0 <= j < |a| && a[j] !in b;
  }

  /** What b holds from place i on, or leaves out, has no more than the priority at i. */
  lemma BelowPlace(collectors: map<string, Collector>, k: nat, b: seq<string>, i: nat, x: string)
    requires IsTopK(collectors, k, b) && i < k && x in collectors && x !in b[..i]
    ensures collectors[x].priority <= collectors[b[i]].priority
  {
    assert forall l :: 0 <= l < i ==> b[l] in b[..i];
    if x in b {
      var l :| 0 <= l < k && b[l] == x;
    }
  }

  lemma NotAbove(collectors: map<string, Collector>, k: nat, a: seq<string>, b: seq<string>, i: nat)
    requires IsTopK(collectors, k, a) && IsTopK(collectors, k, b) && i < k
    ensures collectors[a[i]].priority <= collectors[b[i]].priority
  {
    var j := OneOutside(a[..i + 1], b[..i]);
    BelowPlace(collectors, k, b, i, a[j]);
  }

  /** Where priorities are distinct there is only one selection of k. */
  lemma TopKUnique(collectors: map<string, Collector>, k: nat, a: seq<string>, b: seq<string>)
    requires DistinctPriorities(collectors) && IsTopK(collectors, k, a) && IsTopK(collectors, k, b)
    ensures a == b
  {
    forall i | 0 <= i < k ensures a[i] == b[i] {
      TopKSamePriorities(collectors, k, a, b, i);
    }
  }

  /** Two views of the monitor that differ in the reported loads only. */
  ghost predicate SamePriorities(c: map<string, Collector>, d: map<string, Collector>) {
    c.Keys == d.Keys && forall n :: n in c ==> c[n].priority == d[n].priority
  }

  lemma SameRanking(low: map<string, Collector>, high: map<string, Collector>, order: seq<string>,
                    sort: seq<Ranked> -> seq<Ranked>)
    requires SamePriorities(low, high)
    ensures ByPriority(low, order, sort) == ByPriority(high, order, sort) && |low| == |high|
  {
    assert Rank(low, order) == Rank(high, order);
    assert |low.Keys| == |high.Keys|;
  }

  lemma RankingSize(collectors: map<string, Collector>, order: seq<string>, sort: seq<Ranked> -> seq<Ranked>)
    requires Enumerates(order, collectors) && Sorts(sort)
    ensures |ByPriority(collectors, order, sort)| == |collectors|
  {
    ByPriorityRanks(collectors, order, sort);
    EnumeratedKeys(ByPriority(collectors, order, sort), collectors);
  }

  /**
    As the load rises collectors are shed from the end: what is active at the higher load is the front of
    what is active at the lower one, whatever the priorities, and is not empty when there is a collector.
   */
  lemma SheddingIsMonotone(low: map<string, Collector>, high: map<string, Collector>, order: seq<string>,
                           sort: seq<Ranked> -> seq<Ranked>)
    requires Enumerates(order, low) && Sorts(sort) && SamePriorities(low, high)
    requires Average(low, order) <= Average(high, order)
    ensures var a, b := Active(high, order, sort), Active(low, order, sort);
            |a| <= |b| && a == b[..|a|] && (low != map[] ==> a != [])
  {
    SameRanking(low, high, order, sort);
    RankingSize(low, order, sort);
    BandFalls(|low|, Average(low, order), Average(high, order));
    FrontOfFront(ByPriority(low, order, sort), ActiveCount(|low|, Average(high, order)),
                 ActiveCount(|low|, Average(low, order)));
  }

  lemma FrontOfFront(sorted: seq<string>, k: nat, l: nat)
    requires k <= l <= |sorted|
    ensures sorted[..k] == sorted[..l][..k]
  {
  }

  /** Even between selections that order equal priorities differently, the active list never grows with the load. */
  lemma SheddingKeepsTopPriorities(collectors: map<string, Collector>, low: real, high: real,
                                   a: seq<string>, b: seq<string>)
    requires low <= high
    requires IsTopK(collectors, ActiveCount(|collectors|, high), a)
    requires IsTopK(collectors, ActiveCount(|collectors|, low), b)
    ensures |a| <= |b| && (collectors != map[] ==> a != [])
    ensures forall i :: 0 <= i < |a| ==> collectors[a[i]].priority == collectors[b[i]].priority
  {
    BandFalls(|collectors|, low, high);
    TopKPrefix(collectors, |b|, b, |a|);
    forall i | 0 <= i < |a| ensures collectors[a[i]].priority == collectors[b[i]].priority {
      TopKSamePriorities(collectors, |a|, a, b[..|a|], i);
    }
  }

  // ---------- the load and the bands, from the reported usages ----------

  /** The usages of the collectors that have an object; one without an object counts as 0. */
  function UsageSum(collectors: map<string, Collector>, names: seq<string>): real {
    if names == [] then 0.0
    else
      var name := names[|names| - 1];
      UsageSum(collectors, names[..|names| - 1])
      + if name in collectors && collectors[name].reports then collectors[name].cpu else 0.0
  }

  /** n times x, added up. */
  function Times(x: real, n: nat): real {
    if n == 0 then 0.0 else Times(x, n - 1) + x
  }

  /** How many of n collectors stay active when their usages add up to the sum: bands per collector, clipped to n. */
  function KeptBySum(n: nat, sum: real): nat {
    var kept := if sum > Times(80.0, n) then (if n < 10 then 1 else n / 5)
                else if sum > Times(60.0, n) then (if n < 6 then 2 else n / 2)
                else if sum > Times(40.0, n) then (if n < 6 then 3 else (n + n + n) / 4)
                else n;
    if kept > n then n else kept
  }

  lemma {:induction false} UsageSumIsFold(collectors: map<string, Collector>, names: seq<string>)
    ensures UsageSum(collectors, names) == Fold(AddUsage(collectors), 0.0, names)
  {
    if names == [] {
    } else {
      UsageSumIsFold(collectors, names[..|names| - 1]);
    }
  }

  lemma {:induction false} TimesIsProduct(x: real, n: nat)
    ensures Times(x, n) == x * (n as real)
  {
    if n == 0 {
    } else {
      TimesIsProduct(x, n - 1);
      assert x * (n as real) == x * ((n - 1) as real) + x;
    }
  }

  lemma {:induction false} TimesGrows(a: real, b: real, n: nat)
    requires a < b && n > 0
    ensures Times(a, n) < Times(b, n)
  {
    if n == 1 {
      assert Times(a, 0) == Times(b, 0) == 0.0;
    } else {
      TimesGrows(a, b, n - 1);
    }
  }

  lemma TimesQuotient(sum: real, n: nat)
    requires n > 0
    ensures Times(sum / (n as real), n) == sum
  {
    TimesIsProduct(sum / (n as real), n);
  }

  lemma LoadIsQuotient(collectors: map<string, Collector>, order: seq<string>)
    requires Enumerates(order, collectors) && collectors != map[]
    ensures Average(collectors, order) == UsageSum(collectors, order) / (|collectors| as real)
  {
    EnumeratedKeys(order, collectors);
    UsageSumIsFold(collectors, order);
  }

  /** The load taken once per collector is the sum of the reported usages, in whatever order they are listed. */
  lemma LoadTimesCount(collectors: map<string, Collector>, order: seq<string>)
    requires Enumerates(order, collectors)
    ensures Times(Average(collectors, order), |collectors|) == UsageSum(collectors, order)
  {
    EnumeratedKeys(order, collectors);
    if collectors != map[] {
      LoadIsQuotient(collectors, order);
      TimesQuotient(UsageSum(collectors, order), |collectors|);
    }
  }

  ghost predicate UsageWithin(collectors: map<string, Collector>, name: string, low: real, high: real) {
    name in collectors && low <= (if collectors[name].reports then collectors[name].cpu else 0.0) <= high
  }

  lemma {:induction false} SumBracketed(collectors: map<string, Collector>, names: seq<string>, low: real, high: real)
    requires forall i :: 0 <= i < |names| ==> UsageWithin(collectors, names[i], low, high)
    ensures Times(low, |names|) <= UsageSum(collectors, names) <= Times(high, |names|)
  {
    if names == [] {
    } else {
      var n := |names| - 1;
      SumBracketed(collectors, names[..n], low, high);
      assert UsageWithin(collectors, names[n], low, high);
    }
  }

  /** The load lies between the smallest and the largest usage, so it is the usage when all report the same. */
  lemma LoadBracketed(collectors: map<string, Collector>, order: seq<string>, low: real, high: real)
    requires Enumerates(order, collectors) && collectors != map[]
    requires forall n :: n in collectors ==> UsageWithin(collectors, n, low, high)
    ensures low <= Average(collectors, order) <= high
  {
    var load := Average(collectors, order);
    EnumeratedKeys(order, collectors);
    assert forall i :: 0 <= i < |order| ==> order[i] in order;
    SumBracketed(collectors, order, low, high);
    LoadTimesCount(collectors, order);
    if load < low {
      TimesGrows(load, low, |collectors|);
    }
    if high < load {
      TimesGrows(high, load, |collectors|);
    }
  }

  lemma ScaledBand(load: real, limit: real, n: nat)
    requires n > 0
    ensures load > limit <==> Times(load, n) > Times(limit, n)
  {
    if load > limit {
      TimesGrows(limit, load, n);
    }
    if load < limit {
      TimesGrows(load, limit, n);
    }
  }

  /** The number of active collectors, from the sum of the usages: more than 80 per collector, and so on. */
  lemma BandsBySum(collectors: map<string, Collector>, order: seq<string>)
    requires Enumerates(order, collectors)
    ensures ActiveCount(|collectors|, Average(collectors, order))
         == KeptBySum(|collectors|, UsageSum(collectors, order))
  {
    var n, load := |collectors|, Average(collectors, order);
    LoadTimesCount(collectors, order);
    if n > 0 {
      ScaledBand(load, 80.0, n);
      ScaledBand(load, 60.0, n);
      ScaledBand(load, 40.0, n);
    }
    KeptByLoad(n, load, UsageSum(collectors, order));
  }

  lemma KeptByLoad(n: nat, load: real, sum: real)
    requires n > 0 ==> (load > 80.0 <==> sum > Times(80.0, n))
    requires n > 0 ==> (load > 60.0 <==> sum > Times(60.0, n))
    requires n > 0 ==> (load > 40.0 <==> sum > Times(40.0, n))
    ensures ActiveCount(n, load) == KeptBySum(n, sum)
  {
  }
}
