/** The string key that stands for a metric name with its tags: tags sorted, then written out with delimiters. */
module TagEncoding {
  import opened Sorting

  type Pair = (string, string)

  // ---------- lexicographic order ----------

  predicate LexLe(a: string, b: string) {
    a == [] || (b != [] && (a[0] < b[0] || (a[0] == b[0] && LexLe(a[1..], b[1..]))))
  }

  lemma {:induction false} LexTotal(a: string, b: string)
    ensures LexLe(a, b) || LexLe(b, a)
  {
    if a != [] && b != [] {
      LexTotal(a[1..], b[1..]);
    }
  }

  lemma {:induction false} LexAntisymmetric(a: string, b: string)
    requires LexLe(a, b) && LexLe(b, a)
    ensures a == b
  {
    if a == [] {
    } else {
      LexAntisymmetric(a[1..], b[1..]);
      assert a == [a[0]] + a[1..] && b == [b[0]] + b[1..];
    }
  }

  lemma {:induction false} LexTransitive(a: string, b: string, c: string)
    requires LexLe(a, b) && LexLe(b, c)
    ensures LexLe(a, c)
  {
    if a != [] && a[0] == b[0] == c[0] {
      LexTransitive(a[1..], b[1..], c[1..]);
    }
  }

  predicate PairLe(p: Pair, q: Pair) {
    if p.0 == q.0 then LexLe(p.1, q.1) else LexLe(p.0, q.0)
  }

  lemma PairTotal(p: Pair, q: Pair)
    ensures PairLe(p, q) || PairLe(q, p)
  {
    LexTotal(p.0, q.0);
    LexTotal(p.1, q.1);
  }

  lemma PairAntisymmetric(p: Pair, q: Pair)
    requires PairLe(p, q) && PairLe(q, p)
    ensures p == q
  {
    if p.0 == q.0 {
      LexAntisymmetric(p.1, q.1);
    } else {
      LexAntisymmetric(p.0, q.0);
    }
  }

  lemma PairTransitive(p: Pair, q: Pair, r: Pair)
    requires PairLe(p, q) && PairLe(q, r)
    ensures PairLe(p, r)
  {
    if p.0 == q.0 == r.0 {
      LexTransitive(p.1, q.1, r.1);
    } else {
      if p.0 == q.0 || q.0 == r.0 {
      } else {
        LexTransitive(p.0, q.0, r.0);
        if p.0 == r.0 {
          LexAntisymmetric(p.0, q.0);
        }
      }
    }
  }

  lemma PairOrder()
    ensures TotalOrder(PairLe) && Antisymmetric(PairLe)
  {
    forall p: Pair, q: Pair ensures PairLe(p, q) || PairLe(q, p) {
      PairTotal(p, q);
    }
    forall p: Pair, q: Pair | PairLe(p, q) && PairLe(q, p) ensures p == q {
      PairAntisymmetric(p, q);
    }
    forall p: Pair, q: Pair, r: Pair | PairLe(p, q) && PairLe(q, r) ensures PairLe(p, r) {
      PairTransitive(p, q, r);
    }
  }

  function SortTags(ts: seq<Pair>): (r: seq<Pair>)
    ensures multiset(r) == multiset(ts)
  {
    Sort(PairLe, ts)
  }

  // ---------- encoding ----------

  function EncodeTags(ts: seq<Pair>): string {
    if ts == [] then [] else ";" + ts[0].0 + "=" + ts[0].1 + EncodeTags(ts[1..])
  }

  function Encode(name: string, ts: seq<Pair>): string {
    name + EncodeTags(ts)
  }

  /** entries: the tag map in the order the map happens to enumerate it. */
  method MakeMetricKey(name: string, entries: seq<Pair>) returns (key: string)
    ensures key == Encode(name, SortTags(entries))
  {
    key := name;
    var sorted := SortTags(entries);
    for i := 0 to |sorted|
      invariant key + EncodeTags(sorted[i..]) == Encode(name, sorted)
    {
      ghost var before := key;
      key := key + ";";
      key := key + sorted[i].0;
      key := key + "=";
      key := key + sorted[i].1;
      assert sorted[i..][1..] == sorted[i + 1..];
      assert key + EncodeTags(sorted[i + 1..]) == before + EncodeTags(sorted[i..]);
    }
  }

  // ---------- decoding ----------

  function FirstIndex(s: string, c: char): (i: nat)
    ensures i <= |s| && c !in s[..i] && (i < |s| ==> s[i] == c)
  {
    if s == [] || s[0] == c then 0
    else
      var i := FirstIndex(s[1..], c);
      assert s[..1 + i] == [s[0]] + s[1..][..i];
      1 + i
  }

  lemma FirstIndexUnique(s: string, c: char, i: nat)
    requires i <= |s| && c !in s[..i] && (i < |s| ==> s[i] == c)
    ensures FirstIndex(s, c) == i
  {
    var j := FirstIndex(s, c);
    assert forall k :: 0 <= k < i ==> s[k] in s[..i];
    assert forall k :: 0 <= k < j ==> s[k] in s[..j];
  }

  /** The name part of a key, as it is cut out when metrics are listed. */
  function DecodeName(key: string): string {
    key[..FirstIndex(key, ';')]
  }

  function DecodeTag(segment: string): Pair {
    var e := FirstIndex(segment, '=');
    (segment[..e], if e < |segment| then segment[e + 1..] else "")
  }

  function DecodeTags(rest: string): seq<Pair> {
    if rest == [] then []
    else
      var body := rest[1..];
      var n := FirstIndex(body, ';');
      [DecodeTag(body[..n])] + DecodeTags(body[n..])
  }

  function Decode(key: string): (string, seq<Pair>) {
    (DecodeName(key), DecodeTags(key[|DecodeName(key)|..]))
  }

  predicate CleanTag(t: Pair) {
    ';' !in t.0 && '=' !in t.0 && ';' !in t.1
  }

  predicate CleanTags(ts: seq<Pair>) {
    forall i :: 0 <= i < |ts| ==> CleanTag(ts[i])
  }

  predicate Clean(name: string, ts: seq<Pair>) {
    ';' !in name && CleanTags(ts)
  }

  lemma DecodeTagInverts(t: Pair)
    requires CleanTag(t)
    ensures DecodeTag(t.0 + "=" + t.1) == t
  {
    var s := t.0 + "=" + t.1;
    assert s[..|t.0|] == t.0;
    FirstIndexUnique(s, '=', |t.0|);
  }

  lemma FirstSegment(segment: string, rest: string)
    requires ';' !in segment && (rest == [] || rest[0] == ';')
    ensures FirstIndex(segment + rest, ';') == |segment|
  {
    assert (segment + rest)[..|segment|] == segment;
    FirstIndexUnique(segment + rest, ';', |segment|);
  }

  lemma {:induction false} DecodeTagsInverts(ts: seq<Pair>)
    requires CleanTags(ts)
    ensures DecodeTags(EncodeTags(ts)) == ts
  {
    if ts == [] {
    } else {
      var t := ts[0];
      var segment := t.0 + "=" + t.1;
      var rest := EncodeTags(ts[1..]);
      var all := EncodeTags(ts);
      assert all == [';'] + (segment + rest);
      assert all[1..] == segment + rest;
      FirstSegment(segment, rest);
      assert (segment + rest)[..|segment|] == segment && (segment + rest)[|segment|..] == rest;
      DecodeTagInverts(t);
      DecodeTagsInverts(ts[1..]);
    }
  }

  lemma {:induction false} DecodedTagsAreClean(rest: string)
    ensures CleanTags(DecodeTags(rest))
  {
    if rest == [] {
    } else {
      var body := rest[1..];
      var n := FirstIndex(body, ';');
      DecodedTagsAreClean(body[n..]);
      var segment := body[..n];
      assert forall c :: c in DecodeTag(segment).0 ==> c in segment;
      assert forall c :: c in DecodeTag(segment).1 ==> c in segment;
    }
  }

  /** The key gives back its name and tags exactly when they avoid the delimiters. */
  lemma RoundTripIffClean(name: string, ts: seq<Pair>)
    ensures Decode(Encode(name, ts)) == (name, ts) <==> Clean(name, ts)
  {
    var key := Encode(name, ts);
    if Clean(name, ts) {
      FirstSegment(name, EncodeTags(ts));
      assert key[..|name|] == name && key[|name|..] == EncodeTags(ts);
      DecodeTagsInverts(ts);
    }
    DecodedTagsAreClean(key[|DecodeName(key)|..]);
  }

  /** The name listed for a metric is the recorded one exactly when it has no ';'. */
  lemma ListedNameIffNoSemicolon(name: string, ts: seq<Pair>)
    ensures DecodeName(Encode(name, ts)) == name <==> ';' !in name
  {
    if ';' !in name {
      FirstSegment(name, EncodeTags(ts));
      assert Encode(name, ts)[..|name|] == name;
    }
  }

  // ---------- keys of tag maps ----------

  /** The entries list the map, each pair once, in some order. */
  ghost predicate Enumerates(entries: seq<Pair>, tags: map<string, string>) {
    multiset(entries) == multiset(tags.Items)
  }

  predicate CleanMetric(name: string, tags: map<string, string>) {
    ';' !in name && forall k :: k in tags ==> CleanTag((k, tags[k]))
  }

  lemma EntriesClean(name: string, tags: map<string, string>, entries: seq<Pair>)
    requires Enumerates(entries, tags) && CleanMetric(name, tags)
    ensures Clean(name, SortTags(entries))
  {
    var sorted := SortTags(entries);
    forall i | 0 <= i < |sorted| ensures CleanTag(sorted[i]) {
      assert sorted[i] in multiset(sorted);
      assert sorted[i] in tags.Items;
    }
  }

  lemma SameItems(m1: map<string, string>, m2: map<string, string>)
    requires multiset(m1.Items) == multiset(m2.Items)
    ensures m1 == m2
  {
    forall p ensures p in m1.Items <==> p in m2.Items {
      assert p in m1.Items <==> p in multiset(m1.Items);
      assert p in m2.Items <==> p in multiset(m2.Items);
    }
    forall k ensures k in m1 <==> k in m2 ensures k in m1 && k in m2 ==> m1[k] == m2[k] {
      if k in m1 {
        assert (k, m1[k]) in m2.Items;
      }
      if k in m2 {
        assert (k, m2[k]) in m1.Items;
      }
    }
  }

  /** The enumeration order of the tags never shows in the key. */
  lemma KeyIgnoresEnumeration(name: string, tags: map<string, string>, e1: seq<Pair>, e2: seq<Pair>)
    requires Enumerates(e1, tags) && Enumerates(e2, tags)
    ensures Encode(name, SortTags(e1)) == Encode(name, SortTags(e2))
  {
    PairOrder();
    SortSorts(PairLe, e1);
    SortSorts(PairLe, e2);
    SortUnique(PairLe, SortTags(e1), SortTags(e2));
  }

  /** Clean metrics share a key exactly when they have the same name and the same tags. */
  lemma KeyIsInjective(n1: string, m1: map<string, string>, e1: seq<Pair>,
                       n2: string, m2: map<string, string>, e2: seq<Pair>)
    requires Enumerates(e1, m1) && Enumerates(e2, m2)
    requires CleanMetric(n1, m1) && CleanMetric(n2, m2)
    ensures Encode(n1, SortTags(e1)) == Encode(n2, SortTags(e2)) <==> n1 == n2 && m1 == m2
  {
    EntriesClean(n1, m1, e1);
    EntriesClean(n2, m2, e2);
    RoundTripIffClean(n1, SortTags(e1));
    RoundTripIffClean(n2, SortTags(e2));
    if Encode(n1, SortTags(e1)) == Encode(n2, SortTags(e2)) {
      SameItems(m1, m2);
    } else if n1 == n2 && m1 == m2 {
      KeyIgnoresEnumeration(n1, m1, e1, e2);
    }
  }

  /** Without the restriction two different metrics can share a key. */
  lemma DelimiterCollision()
    ensures Encode("a;b=c", SortTags([])) == Encode("a", SortTags([("b", "c")]))
  {
    assert EncodeTags([("b", "c")]) == ";" + "b" + "=" + "c" + EncodeTags([]);
    assert SortTags([("b", "c")]) == Insert(PairLe, ("b", "c"), Sort(PairLe, []));
  }

  lemma {:induction false} EnumerationExists(tags: map<string, string>) returns (entries: seq<Pair>)
    ensures Enumerates(entries, tags)
    decreases |tags|
  {
    if tags == map[] {
      entries := [];
    } else {
      var k :| k in tags;
      var rest := tags - {k};
      assert rest.Keys == tags.Keys - {k};
      assert |rest| == |rest.Keys| && |tags| == |tags.Keys|;
      var e := EnumerationExists(rest);
      entries := e + [(k, tags[k])];
      forall p ensures p in tags.Items <==> p in rest.Items + {(k, tags[k])} {
        assert p in tags.Items <==> p.0 in tags && tags[p.0] == p.1;
      }
      assert tags.Items == rest.Items + {(k, tags[k])};
      assert (k, tags[k]) !in rest.Items;
    }
  }

  ghost function KeyOf(name: string, tags: map<string, string>): string {
    EnumerationWitness(tags);
    var entries :| Enumerates(entries, tags);
    Encode(name, SortTags(entries))
  }

  lemma EnumerationWitness(tags: map<string, string>)
    ensures exists entries :: Enumerates(entries, tags)
  {
    var e := EnumerationExists(tags);
  }

  lemma KeyOfAny(name: string, tags: map<string, string>, entries: seq<Pair>)
    requires Enumerates(entries, tags)
    ensures Encode(name, SortTags(entries)) == KeyOf(name, tags)
  {
    EnumerationWitness(tags);
    var e :| Enumerates(e, tags) && KeyOf(name, tags) == Encode(name, SortTags(e));
    KeyIgnoresEnumeration(name, tags, entries, e);
  }

  lemma KeyOfInjective(n1: string, m1: map<string, string>, n2: string, m2: map<string, string>)
    requires CleanMetric(n1, m1) && CleanMetric(n2, m2)
    ensures KeyOf(n1, m1) == KeyOf(n2, m2) <==> n1 == n2 && m1 == m2
    ensures DecodeName(KeyOf(n1, m1)) == n1
  {
    var e1 := EnumerationExists(m1);
    var e2 := EnumerationExists(m2);
    KeyOfAny(n1, m1, e1);
    KeyOfAny(n2, m2, e2);
    KeyIsInjective(n1, m1, e1, n2, m2, e2);
    ListedNameIffNoSemicolon(n1, SortTags(e1));
  }

  // ---------- when a metric shares its key ----------

  /** Another metric, with a name as recording demands, has the same key. */
  ghost predicate Shared(n: string, m: map<string, string>) {
    exists n2, m2 :: n2 != "" && (n2, m2) != (n, m) && KeyOf(n2, m2) == KeyOf(n, m)
  }

  /** The name reads like a name with at least one tag: a '=' after a ';' that is not its first character. */
  predicate ReadsAsTagged(n: string) {
    exists i, j :: 1 <= i < j < |n| && n[i] == ';' && n[j] == '='
  }

  lemma KeyOfUntagged(n: string)
    ensures KeyOf(n, map[]) == n
  {
    KeyOfAny(n, map[], []);
    assert n + EncodeTags([]) == n;
  }

  lemma KeyOfOneTag(n: string, k: string, v: string)
    ensures KeyOf(n, map[k := v]) == n + ";" + k + "=" + v
  {
    var tags := map[k := v];
    var single: set<Pair> := {(k, v)};
    assert (k, v) in tags.Items;
    assert tags.Keys == {k} && |tags.Items| == |tags| == |tags.Keys| == 1;
    assert |tags.Items - single| == 0;
    assert tags.Items == single;
    assert multiset([(k, v)]) == multiset{(k, v)} == multiset(tags.Items);
    KeyOfAny(n, tags, [(k, v)]);
    assert SortTags([(k, v)]) == Insert(PairLe, (k, v), Sort(PairLe, [])) == [(k, v)];
    assert EncodeTags([(k, v)]) == ";" + k + "=" + v + EncodeTags([]);
  }

  /** An untagged metric can carry the key of any tagged one as its name. */
  lemma TaggedIsShared(n: string, m: map<string, string>)
    requires n != "" && m != map[]
    ensures Shared(n, m)
  {
    var key := KeyOf(n, m);
    var entries := EnumerationExists(m);
    KeyOfAny(n, m, entries);
    KeyOfUntagged(key);
    assert key != "" && KeyOf(key, map[]) == key;
  }

  lemma CutAtTag(n: string, i: nat, j: nat)
    requires i < j < |n| && n[i] == ';' && n[j] == '='
    ensures n == n[..i] + ";" + n[i + 1..j] + "=" + n[j + 1..]
  {
    assert n == n[..j] + [n[j]] + n[j + 1..];
    assert n[..j] == n[..i] + [n[i]] + n[i + 1..j];
  }

  lemma SharesWith(n: string, m: map<string, string>, n2: string, m2: map<string, string>)
    requires n2 != "" && m2 != m && KeyOf(n2, m2) == KeyOf(n, m)
    ensures Shared(n, m)
  {
  }

  lemma OneTagIsSome(k: string, v: string)
    ensures map[k := v] != map[]
  {
    assert k in map[k := v];
  }

  lemma TagReadingIsShared(n: string)
    requires ReadsAsTagged(n)
    ensures Shared(n, map[])
  {
    var i, j :| 1 <= i < j < |n| && n[i] == ';' && n[j] == '=';
    var k, v := n[i + 1..j], n[j + 1..];
    CutAtTag(n, i, j);
    KeyOfOneTag(n[..i], k, v);
    KeyOfUntagged(n);
    OneTagIsSome(k, v);
    SharesWith(n, map[], n[..i], map[k := v]);
  }

  lemma TaggedKeyReadsAsTagged(n: string, m: map<string, string>)
    requires n != "" && m != map[]
    ensures ReadsAsTagged(KeyOf(n, m))
  {
    var entries := EnumerationExists(m);
    KeyOfAny(n, m, entries);
    var sorted := SortTags(entries);
    NotEmpty(entries, sorted, m);
    var t := sorted[0];
    var key := KeyOf(n, m);
    assert key == n + (";" + t.0 + "=" + t.1 + EncodeTags(sorted[1..]));
    assert key[|n|] == ';' && key[|n| + 1 + |t.0|] == '=';
  }

  lemma NotEmpty(entries: seq<Pair>, sorted: seq<Pair>, m: map<string, string>)
    requires Enumerates(entries, m) && m != map[] && multiset(sorted) == multiset(entries)
    ensures sorted != []
  {
    var k :| k in m;
    assert (k, m[k]) in m.Items;
    assert (k, m[k]) in multiset(sorted);
  }

  /**
    A named metric shares its key with another one if and only if it has a tag, or its name has a '='
    after a ';' that is not the first character: what a caller can look at before recording.
   */
  lemma KeySharedIff(n: string, m: map<string, string>)
    requires n != ""
    ensures Shared(n, m) <==> m != map[] || ReadsAsTagged(n)
  {
    if m != map[] {
      TaggedIsShared(n, m);
    } else if ReadsAsTagged(n) {
      TagReadingIsShared(n);
    } else {
      KeyOfUntagged(n);
      forall n2, m2 | n2 != "" && KeyOf(n2, m2) == n ensures n2 == n && m2 == map[] {
        if m2 != map[] {
          TaggedKeyReadsAsTagged(n2, m2);
        }
        KeyOfUntagged(n2);
      }
    }
  }
}
