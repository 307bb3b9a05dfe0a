/** Samples tagged with the thread (or buffer) they came from. */
module Interleavings {
  import opened Folding
  import opened ProfileStats

  type Tagged = (nat, Sample)

  function From(k: nat): Tagged -> bool {
    (t: Tagged) => t.0 == k
  }

  function Tag(k: nat, xs: seq<Sample>): (r: seq<Tagged>)
    ensures |r| == |xs|
  {
    seq(|xs|, i requires 0 <= i < |xs| => (k, xs[i]))
  }

  function Untag(ts: seq<Tagged>): (r: seq<Sample>)
    ensures |r| == |ts|
  {
    seq(|ts|, i requires 0 <= i < |ts| => ts[i].1)
  }

  lemma {:induction false} FilterTag(j: nat, k: nat, xs: seq<Sample>)
    ensures Filter(From(j), Tag(k, xs)) == if j == k then Tag(k, xs) else []
  {
    if xs == [] {
    } else {
      var n := |xs| - 1;
      assert Tag(k, xs) == Tag(k, xs[..n]) + [(k, xs[n])];
      FilterTag(j, k, xs[..n]);
      FilterAppend(From(j), Tag(k, xs[..n]), (k, xs[n]));
    }
  }

  lemma {:induction false} NoneFrom(k: nat, log: seq<Tagged>)
    requires forall t :: t in log ==> t.0 != k
    ensures Filter(From(k), log) == []
  {
    if log == [] {
    } else {
      NoneFrom(k, log[..|log| - 1]);
    }
  }

  /** One program after the other. */
  function InTurn(programs: seq<seq<Sample>>, n: nat): seq<Tagged>
    requires n <= |programs|
  {
    if n == 0 then [] else InTurn(programs, n - 1) + Tag(n - 1, programs[n - 1])
  }

  lemma ProgramAppended(log: seq<Tagged>, j: nat, program: seq<Sample>, k: nat)
    ensures Filter(From(k), log + Tag(j, program)) == Filter(From(k), log) + (if k == j then Tag(k, program) else [])
  {
    FilterConcat(From(k), log, Tag(j, program));
    FilterTag(k, j, program);
  }

  lemma {:induction false} InTurnProjects(programs: seq<seq<Sample>>, n: nat, k: nat)
    requires n <= |programs|
    ensures Filter(From(k), InTurn(programs, n)) == if k < n then Tag(k, programs[k]) else []
  {
    if n == 0 {
    } else {
      InTurnProjects(programs, n - 1, k);
      ProgramAppended(InTurn(programs, n - 1), n - 1, programs[n - 1], k);
    }
  }

  /** Logs with the same per-thread projections hold the same entries. */
  lemma SameProjections(a: seq<Tagged>, b: seq<Tagged>)
    requires forall k :: Filter(From(k), a) == Filter(From(k), b)
    ensures multiset(a) == multiset(b)
  {
    var ma, mb := multiset(a), multiset(b);
    forall e: Tagged ensures ma[e] == mb[e] {
      FilterCount(From(e.0), a, e);
      FilterCount(From(e.0), b, e);
    }
    assert ma == mb;
  }

  function AddUntagged(m: multiset<Sample>, e: Tagged): multiset<Sample> {
    m + multiset{e.1}
  }

  lemma {:induction false} UntaggedAsFold(ts: seq<Tagged>)
    ensures multiset(Untag(ts)) == Fold(AddUntagged, multiset{}, ts)
  {
    if ts == [] {
      assert Untag(ts) == [];
    } else {
      var n := |ts| - 1;
      UntaggedAsFold(ts[..n]);
      assert Untag(ts) == Untag(ts[..n]) + [ts[n].1];
    }
  }

  lemma UntagPermutation(a: seq<Tagged>, b: seq<Tagged>)
    requires multiset(a) == multiset(b)
    ensures multiset(Untag(a)) == multiset(Untag(b))
  {
    UntaggedAsFold(a);
    UntaggedAsFold(b);
    forall m: multiset<Sample>, x: Tagged, y: Tagged
      ensures AddUntagged(AddUntagged(m, x), y) == AddUntagged(AddUntagged(m, y), x)
    {
    }
    FoldPermutation(AddUntagged, multiset{}, a, b);
  }
}
