/**
  The least-recently-used table that the central collector and the profiler both keep: a map whose
  entries carry the clock reading of their last access.  Two views are related here:

    - the stamped view (`Cache`), in which making room searches for the smallest stamp, and
    - the list view (`seq<Item>`), in which an access moves its entry to the front and the tail is cut.
 */
module LruCache {
  import opened Options

  datatype Slot<+V> = Slot(value: V, lastAccess: int)

  type Cache<+V> = map<string, Slot<V>>

  /** The largest reading of a 64-bit clock; the search for the oldest entry starts from it. */
  const MAX_TIME: int := 0x7FFF_FFFF_FFFF_FFFF

  /** What the eviction search may pick: a smallest stamp, if it is below the starting bound. */
  predicate IsOldest<V>(m: Cache<V>, k: string) {
    && k in m
    && m[k].lastAccess < MAX_TIME
    && forall j :: j in m ==> m[k].lastAccess <= m[j].lastAccess
  }

  /**
    What can be evicted when `name` is accessed.  The new name is already in the table when its
    size is tested, which is why the size compared with the limit is |m| + 1.
   */
  predicate Evicts<V>(limit: nat, m: Cache<V>, name: string, victim: Option<string>) {
    if name in m || |m| + 1 < limit then victim == None
    else match victim
      case Some(k) => IsOldest(m, k)
      case None => forall k :: k in m ==> m[k].lastAccess >= MAX_TIME
  }

  /** The table after an access to `name` that evicts `victim`. */
  function Access<V>(m: Cache<V>, name: string, blank: V, update: V -> V, now: int, victim: Option<string>): Cache<V> {
    if name in m then m[name := Slot(update(m[name].value), now)]
    else (match victim case Some(k) => m - {k} case None => m)[name := Slot(update(blank), now)]
  }

  /** How many entries the table can really hold. */
  function Capacity(limit: nat): (c: nat) {
    if limit <= 2 then 1 else limit - 1
  }

  ghost predicate StampsBelow<V>(m: Cache<V>, now: int) {
    forall k :: k in m ==> m[k].lastAccess < now
  }

  // ---------- size ----------

  lemma RemoveSize<V>(m: Cache<V>, k: string)
    requires k in m
    ensures |m - {k}| == |m| - 1
  {
    assert (m - {k}).Keys == m.Keys - {k};
    assert |m.Keys - {k}| == |m.Keys| - 1;
  }

  lemma OldestExists<V>(m: Cache<V>) returns (k: string)
    requires m != map[]
    ensures k in m && forall j :: j in m ==> m[k].lastAccess <= m[j].lastAccess
    decreases |m|
  {
    k :| k in m;
    var rest := m - {k};
    if rest == map[] {
    } else {
      RemoveSize(m, k);
      var r := OldestExists(rest);
      assert forall j :: j in m ==> j == k || j in rest;
      if m[r].lastAccess < m[k].lastAccess {
        k := r;
      }
    }
  }

  lemma PutSize<V>(m: Cache<V>, k: string, s: Slot<V>)
    ensures |m[k := s]| == |m| + if k in m then 0 else 1
  {
    assert m[k := s].Keys == m.Keys + {k};
  }

  lemma AccessSize<V>(m: Cache<V>, name: string, blank: V, update: V -> V, now: int, victim: Option<string>)
    requires victim.Some? ==> name !in m && victim.value in m
    ensures |Access(m, name, blank, update, now, victim)|
         == |m| + (if name in m then 0 else 1) - (if victim.Some? then 1 else 0)
  {
    if name in m {
      PutSize(m, name, Slot(update(m[name].value), now));
    } else {
      if victim.Some? {
        RemoveSize(m, victim.value);
      }
      PutSize(match victim case Some(k) => m - {k} case None => m, name, Slot(update(blank), now));
    }
  }

  /** Below the clock's maximum, eviction is skipped only while there is room (or nothing to evict). */
  lemma NoVictimNoNeed<V>(limit: nat, m: Cache<V>, name: string)
    requires StampsBelow(m, MAX_TIME) && name !in m
    requires Evicts(limit, m, name, None)
    ensures |m| + 1 < limit || m == map[]
  {
    if m != map[] {
      var k := OldestExists(m);
    }
  }

  lemma RoomMeansNoVictim<V>(limit: nat, m: Cache<V>, name: string, victim: Option<string>)
    requires Evicts(limit, m, name, victim) && |m| < Capacity(limit)
    ensures victim == None
  {
  }

  /** As long as the clock stays below its maximum, an access never takes the table over its capacity. */
  lemma AccessKeepsCapacity<V>(limit: nat, m: Cache<V>, name: string, blank: V, update: V -> V,
                               now: int, victim: Option<string>)
    requires |m| <= Capacity(limit) && StampsBelow(m, MAX_TIME)
    requires Evicts(limit, m, name, victim)
    ensures |Access(m, name, blank, update, now, victim)| <= Capacity(limit)
  {
    AccessSize(m, name, blank, update, now, victim);
    if name !in m && victim == None {
      NoVictimNoNeed(limit, m, name);
    }
  }

  // ---------- the list view ----------

  datatype Item<+V> = Item(name: string, value: V)

  function Names<V>(l: seq<Item<V>>): (r: seq<string>)
    ensures |r| == |l|
    ensures forall i :: 0 <= i < |l| ==> r[i] == l[i].name
  {
    seq(|l|, i requires 0 <= i < |l| => l[i].name)
  }

  ghost predicate Distinct(xs: seq<string>) {
    forall i, j :: 0 <= i < j < |xs| ==> xs[i] != xs[j]
  }

  function IndexOf(xs: seq<string>, x: string): (i: nat)
    ensures i <= |xs|
    ensures i < |xs| ==> xs[i] == x
    ensures x !in xs[..i]
    ensures i == |xs| <==> x !in xs
  {
    if xs == [] then 0
    else if xs[0] == x then 0
    else
      var i := IndexOf(xs[1..], x);
      assert xs == [xs[0]] + xs[1..];
      assert xs[..1 + i] == [xs[0]] + xs[1..][..i];
      1 + i
  }

  function Without<T>(xs: seq<T>, i: nat): (r: seq<T>)
    requires i < |xs|
    ensures |r| == |xs| - 1
    ensures forall j :: 0 <= j < i ==> r[j] == xs[j]
    ensures forall j :: i <= j < |r| ==> r[j] == xs[j + 1]
  {
    xs[..i] + xs[i + 1..]
  }

  lemma WithoutKeepsOthers(xs: seq<string>, i: nat)
    requires i < |xs| && Distinct(xs)
    ensures Distinct(Without(xs, i))
    ensures forall x :: x in Without(xs, i) <==> x in xs && x != xs[i]
  {
    var r := Without(xs, i);
    forall x | x in xs && x != xs[i] ensures x in r {
      var j :| 0 <= j < |xs| && xs[j] == x;
      assert r[if j < i then j else j - 1] == x;
    }
  }

  /** An access in the list view: move to the front, or push in front and cut the tail. */
  function Promote<V>(cap: nat, l: seq<Item<V>>, name: string, blank: V, update: V -> V): seq<Item<V>>
    requires cap >= 1
  {
    var i := IndexOf(Names(l), name);
    if i < |l| then [Item(name, update(l[i].value))] + Without(l, i)
    else [Item(name, update(blank))] + (if |l| < cap then l else l[..cap - 1])
  }

  /** The stamped table holds exactly the listed entries, and stamps decrease along the list. */
  ghost predicate Represents<V>(m: Cache<V>, l: seq<Item<V>>) {
    && m.Keys == (set x | x in Names(l))
    && (forall i :: 0 <= i < |l| ==> l[i].name in m && m[l[i].name].value == l[i].value)
    && (forall i, j :: 0 <= i < j < |l| ==> m[l[i].name].lastAccess > m[l[j].name].lastAccess)
  }

  lemma {:induction false} DistinctSize(xs: seq<string>)
    requires Distinct(xs)
    ensures |set x | x in xs| == |xs|
  {
    if xs == [] {
    } else {
      var n := |xs| - 1;
      DistinctSize(xs[..n]);
      assert xs == xs[..n] + [xs[n]];
      assert (set x | x in xs) == (set x | x in xs[..n]) + {xs[n]};
    }
  }

  lemma RepresentsSize<V>(m: Cache<V>, l: seq<Item<V>>)
    requires Represents(m, l)
    ensures Distinct(Names(l)) && |m| == |l|
  {
    DistinctSize(Names(l));
  }

  /** With readings later than every stamp, searching for the oldest stamp is cutting the list's tail. */
  lemma AccessRefinesPromote<V>(limit: nat, m: Cache<V>, l: seq<Item<V>>, name: string, blank: V,
                                update: V -> V, now: int, victim: Option<string>)
    requires Represents(m, l) && |l| <= Capacity(limit)
    requires StampsBelow(m, now) && now <= MAX_TIME
    requires Evicts(limit, m, name, victim)
    ensures Represents(Access(m, name, blank, update, now, victim), Promote(Capacity(limit), l, name, blank, update))
    ensures |Promote(Capacity(limit), l, name, blank, update)| <= Capacity(limit)
    ensures victim.Some? <==> name !in m && |l| == Capacity(limit)
  {
    RepresentsSize(m, l);
    if name in m {
      assert name in Names(l);
      PromoteStored(m, l, IndexOf(Names(l), name), update(m[name].value), now);
    } else if |l| < Capacity(limit) {
      if victim.Some? {
        assert false;
      }
      PromoteNew(m, l, name, update(blank), now);
    } else {
      if victim == None {
        NoVictimNoNeed(limit, m, name);
        assert false;
      }
      OnlyTailIsOldest(m, l);
      RemoveRepresents(m, l, |l| - 1);
      assert Without(l, |l| - 1) == l[..|l| - 1];
      PromoteNew(m - {victim.value}, l[..|l| - 1], name, update(blank), now);
    }
  }

  lemma PromoteStored<V>(m: Cache<V>, l: seq<Item<V>>, i: nat, value: V, now: int)
    requires Represents(m, l) && Distinct(Names(l)) && StampsBelow(m, now) && i < |l|
    ensures Represents(m[l[i].name := Slot(value, now)], [Item(l[i].name, value)] + Without(l, i))
  {
    var name := l[i].name;
    var rest := Without(l, i);
    WithoutKeepsOthers(Names(l), i);
    assert Names(rest) == Without(Names(l), i);
    RemoveRepresents(m, l, i);
    assert name !in m - {name};
    PromoteNew(m - {name}, rest, name, value, now);
    assert m[name := Slot(value, now)] == (m - {name})[name := Slot(value, now)];
  }

  lemma WithoutNames<V>(l: seq<Item<V>>, i: nat)
    requires Distinct(Names(l)) && i < |l|
    ensures Names(Without(l, i)) == Without(Names(l), i)
    ensures (set x | x in Names(Without(l, i))) == (set x | x in Names(l)) - {l[i].name}
  {
    assert Names(Without(l, i)) == Without(Names(l), i);
    WithoutKeepsOthers(Names(l), i);
  }

  /** Taking one entry out of both views. */
  lemma RemoveRepresents<V>(m: Cache<V>, l: seq<Item<V>>, i: nat)
    requires Represents(m, l) && Distinct(Names(l)) && i < |l|
    ensures Represents(m - {l[i].name}, Without(l, i))
  {
    var rest := Without(l, i);
    WithoutNames(l, i);
    assert (m - {l[i].name}).Keys == m.Keys - {l[i].name};
    forall j | 0 <= j < |rest| ensures rest[j].name in m - {l[i].name} {
      assert Names(rest)[j] in Names(rest);
    }
  }

  lemma PromoteNew<V>(m: Cache<V>, l: seq<Item<V>>, name: string, value: V, now: int)
    requires Represents(m, l) && StampsBelow(m, now) && name !in m
    ensures Represents(m[name := Slot(value, now)], [Item(name, value)] + l)
  {
    var l' := [Item(name, value)] + l;
    assert Names(l') == [name] + Names(l);
    assert m[name := Slot(value, now)].Keys == m.Keys + {name};
  }

  lemma OnlyTailIsOldest<V>(m: Cache<V>, l: seq<Item<V>>)
    requires Represents(m, l) && l != [] && StampsBelow(m, MAX_TIME)
    ensures IsOldest(m, l[|l| - 1].name)
    ensures forall k :: IsOldest(m, k) ==> k == l[|l| - 1].name
  {
    var last := l[|l| - 1].name;
    forall k | k in m ensures m[last].lastAccess <= m[k].lastAccess
                      ensures IsOldest(m, k) ==> k == last {
      assert k in Names(l);
      var i :| 0 <= i < |l| && Names(l)[i] == k;
    }
  }

  // ---------- which names survive ----------

  /** The distinct names of a trace, most recently used first. */
  function ByRecency(names: seq<string>): seq<string> {
    if names == [] then []
    else
      var n := names[|names| - 1];
      var rest := ByRecency(names[..|names| - 1]);
      var i := IndexOf(rest, n);
      [n] + (if i < |rest| then Without(rest, i) else rest)
  }

  /** The distinct names used after the last use of `name`. */
  function UsedAfter(names: seq<string>, name: string): set<string>
    requires name in names
  {
    var n := names[|names| - 1];
    if n == name then {} else
      assert names == names[..|names| - 1] + [n];
      UsedAfter(names[..|names| - 1], name) + {n}
  }

  /** `name` is among the `c` most recently used distinct names of the trace. */
  ghost predicate AmongMostRecent(names: seq<string>, c: nat, name: string) {
    name in names && |UsedAfter(names, name)| < c
  }

  /** The recency order lists each name of the trace once, at the rank counted by `UsedAfter`. */
  lemma {:induction false} RecencyOrder(names: seq<string>)
    ensures Distinct(ByRecency(names))
    ensures forall x :: x in names <==> x in ByRecency(names)
  {
    if names == [] {
    } else {
      var init := names[..|names| - 1];
      var n := names[|names| - 1];
      assert names == init + [n];
      RecencyOrder(init);
      var rest := ByRecency(init);
      var k := IndexOf(rest, n);
      if k < |rest| {
        WithoutKeepsOthers(rest, k);
      }
    }
  }

  function Elements(xs: seq<string>): set<string> {
    set x | x in xs
  }

  lemma {:induction false} RecencyRank(names: seq<string>, i: nat)
    requires i < |ByRecency(names)|
    ensures ByRecency(names)[i] in names
    ensures UsedAfter(names, ByRecency(names)[i]) == Elements(ByRecency(names)[..i])
  {
    RecencyOrder(names);
    var r := ByRecency(names);
    assert r[i] in r;
    if i == 0 {
    } else {
      var init := names[..|names| - 1];
      var rest := ByRecency(init);
      var k := IndexOf(rest, r[0]);
      var j := if i <= k then i - 1 else i;
      assert r[i] == rest[j] && r[i] != r[0];
      RecencyRank(init, j);
      PrefixWithout(rest, k, i, r[0]);
    }
  }

  lemma PrefixWithout(xs: seq<string>, k: nat, i: nat, x: string)
    requires k <= |xs| && (k < |xs| ==> xs[k] == x) && 0 < i
    requires i < 1 + (if k < |xs| then |xs| - 1 else |xs|)
    ensures Elements(([x] + (if k < |xs| then Without(xs, k) else xs))[..i])
         == Elements(xs[..if i <= k then i - 1 else i]) + {x}
  {
    var r := [x] + (if k < |xs| then Without(xs, k) else xs);
    if i <= k {
      assert r[..i] == [x] + xs[..i - 1];
    } else {
      assert xs[..i] == xs[..k] + [x] + xs[k + 1..i];
      assert r[..i] == [x] + (xs[..k] + xs[k + 1..i]);
    }
  }

  function Take<T>(xs: seq<T>, c: nat): seq<T> {
    if |xs| < c then xs else xs[..c]
  }

  /** The first `c` names of the recency order are exactly the `c` most recently used ones. */
  lemma RecencyPrefix(names: seq<string>, c: nat, name: string)
    ensures AmongMostRecent(names, c, name) <==> name in Take(ByRecency(names), c)
  {
    RecencyOrder(names);
    var r := ByRecency(names);
    if name in names {
      var i :| 0 <= i < |r| && r[i] == name;
      RecencyRank(names, i);
      DistinctSize(r[..i]);
      assert Elements(r[..i]) == set x | x in r[..i];
      if i < c {
        assert Take(r, c)[i] == name;
      }
    }
  }

  /** Promotion acts on the recency order of the trace, cut at the capacity. */
  lemma PromoteFollowsRecency<V>(cap: nat, l: seq<Item<V>>, names: seq<string>, name: string,
                                 blank: V, update: V -> V)
    requires cap >= 1
    requires Names(l) == Take(ByRecency(names), cap)
    ensures Names(Promote(cap, l, name, blank, update)) == Take(ByRecency(names + [name]), cap)
  {
    RecencyOrder(names);
    NamesOfPromote(cap, l, name, blank, update);
    PromoteNames(cap, ByRecency(names), name, IndexOf(Names(l), name));
    assert (names + [name])[..|names|] == names;
  }

  /** Promotion seen on the names alone. */
  function PromoteName(cap: nat, names: seq<string>, name: string): seq<string>
    requires cap >= 1
  {
    var i := IndexOf(names, name);
    [name] + (if i < |names| then Without(names, i) else if |names| < cap then names else names[..cap - 1])
  }

  lemma NamesOfPromote<V>(cap: nat, l: seq<Item<V>>, name: string, blank: V, update: V -> V)
    requires cap >= 1
    ensures Names(Promote(cap, l, name, blank, update)) == PromoteName(cap, Names(l), name)
  {
    var i := IndexOf(Names(l), name);
    var l' := Promote(cap, l, name, blank, update);
    assert l' == [l'[0]] + l'[1..];
    PrependName(l'[0], l'[1..]);
    if i < |l| {
      assert l'[1..] == Without(l, i);
      assert Names(Without(l, i)) == Without(Names(l), i);
    } else if |l| < cap {
      assert l'[1..] == l;
    } else {
      assert l'[1..] == l[..cap - 1];
      assert Names(l[..cap - 1]) == Names(l)[..cap - 1];
    }
  }

  lemma PrependName<V>(item: Item<V>, l: seq<Item<V>>)
    ensures Names([item] + l) == [item.name] + Names(l)
  {
  }

  lemma PromoteNames(cap: nat, rest: seq<string>, name: string, i: nat)
    requires cap >= 1 && Distinct(rest) && i == IndexOf(Take(rest, cap), name)
    ensures PromoteName(cap, Take(rest, cap), name)
         == Take([name] + (if IndexOf(rest, name) < |rest| then Without(rest, IndexOf(rest, name)) else rest), cap)
  {
    IndexInTake(cap, rest, name);
    var k := IndexOf(rest, name);
    if k < |Take(rest, cap)| {
      FrontWithout(cap, rest, k, name);
    } else if k < |rest| {
      FrontBeyond(cap, rest, k, name);
    } else {
      FrontOfAll(cap, rest, name);
    }
  }

  lemma IndexInTake(cap: nat, rest: seq<string>, name: string)
    ensures var k, i := IndexOf(rest, name), IndexOf(Take(rest, cap), name);
            if k < |Take(rest, cap)| then i == k else i == |Take(rest, cap)|
  {
    var names, k, i := Take(rest, cap), IndexOf(rest, name), IndexOf(Take(rest, cap), name);
    assert names == rest[..|names|];
    assert forall j :: 0 <= j < k ==> rest[j] in rest[..k];
    assert forall j :: 0 <= j < i ==> names[j] in names[..i];
    assert i < |names| ==> rest[i] == name;
  }

  /** The name is among those kept: it moves to the front. */
  lemma FrontWithout(cap: nat, rest: seq<string>, k: nat, name: string)
    requires cap >= 1 && k < |Take(rest, cap)|
    ensures [name] + Without(Take(rest, cap), k) == Take([name] + Without(rest, k), cap)
  {
  }

  /** The name was cut off before: it pushes the last one out. */
  lemma FrontBeyond(cap: nat, rest: seq<string>, k: nat, name: string)
    requires cap >= 1 && |Take(rest, cap)| <= k < |rest|
    ensures [name] + Take(rest, cap)[..cap - 1] == Take([name] + Without(rest, k), cap)
  {
  }

  lemma FrontOfAll(cap: nat, rest: seq<string>, name: string)
    requires cap >= 1
    ensures var names := Take(rest, cap);
            [name] + (if |names| < cap then names else names[..cap - 1]) == Take([name] + rest, cap)
  {
  }
}
