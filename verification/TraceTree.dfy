/** The walk over a trace's spans by parent id, as the list of spans it displays with their depths. */
module TraceTree {

  datatype Span = Span(id: string, parent: string)

  datatype Visit = Visit(index: nat, depth: nat)

  /** Ids are non-empty and no two spans share one.  Parent links may dangle or even form cycles. */
  ghost predicate UniqueIds(spans: seq<Span>) {
    && (forall i :: 0 <= i < |spans| ==> spans[i].id != "")
    && (forall i, j :: 0 <= i < j < |spans| ==> spans[i].id != spans[j].id)
  }

  /** Span indices from a span without a parent down along parent links. */
  ghost predicate IsPath(spans: seq<Span>, path: seq<nat>) {
    && path != []
    && (forall k :: 0 <= k < |path| ==> path[k] < |spans|)
    && spans[path[0]].parent == ""
    && (forall k :: 0 < k < |path| ==> spans[path[k]].parent == spans[path[k - 1]].id)
  }

  ghost function End(path: seq<nat>): nat
    requires path != []
  {
    path[|path| - 1]
  }

  // ---------- termination ----------

  lemma LaterHasParent(spans: seq<Span>, p: seq<nat>)
    requires UniqueIds(spans) && IsPath(spans, p)
    ensures |p| > 1 <==> spans[End(p)].parent != ""
  {
    if |p| > 1 {
      assert spans[p[|p| - 1]].parent == spans[p[|p| - 2]].id;
    }
  }

  /** Only one path leads to a span. */
  lemma {:induction false} PathUnique(spans: seq<Span>, p: seq<nat>, q: seq<nat>)
    requires UniqueIds(spans) && IsPath(spans, p) && IsPath(spans, q) && End(p) == End(q)
    ensures p == q
    decreases |p|
  {
    var n, m := |p| - 1, |q| - 1;
    LaterHasParent(spans, p);
    LaterHasParent(spans, q);
    if n == 0 {
    } else {
      assert spans[p[n]].parent == spans[p[n - 1]].id && spans[q[m]].parent == spans[q[m - 1]].id;
      assert p[n - 1] == q[m - 1];
      PathUnique(spans, p[..n], q[..m]);
      assert p == p[..n] + [p[n]] && q == q[..m] + [q[m]];
    }
  }

  lemma PathHasNoRepeats(spans: seq<Span>, p: seq<nat>, i: nat, j: nat)
    requires UniqueIds(spans) && IsPath(spans, p) && i < j < |p|
    ensures p[i] != p[j]
  {
    var a, b := p[..i + 1], p[..j + 1];
    assert IsPath(spans, a) && IsPath(spans, b) && |a| < |b|;
    if p[i] == p[j] {
      PathUnique(spans, a, b);
    }
  }

  lemma {:induction false} PigeonHole(p: seq<nat>, n: nat)
    requires forall k :: 0 <= k < |p| ==> p[k] < n
    requires forall i, j :: 0 <= i < j < |p| ==> p[i] != p[j]
    ensures |p| <= n
  {
    assert p == [] || p[0] < n;
    if n == 0 {
    } else if n - 1 in p {
      var k :| 0 <= k < |p| && p[k] == n - 1;
      PigeonHole(p[..k] + p[k + 1..], n - 1);
    } else {
      PigeonHole(p, n - 1);
    }
  }

  lemma PathFits(spans: seq<Span>, p: seq<nat>)
    requires UniqueIds(spans) && IsPath(spans, p)
    ensures |p| <= |spans|
  {
    forall i, j | 0 <= i < j < |p| ensures p[i] != p[j] {
      PathHasNoRepeats(spans, p, i, j);
    }
    PigeonHole(p, |spans|);
  }

  // ---------- the walk ----------

  /**
    The children of the span at the end of `path`, from position i on, each followed by its own
    subtree.  A path never repeats a span, so the recursion ends whatever the parent links look like.
   */
  function DisplayChildren(spans: seq<Span>, i: nat, parentId: string, depth: nat, ghost path: seq<nat>): seq<Visit>
    requires UniqueIds(spans) && IsPath(spans, path) && |path| <= |spans| && i <= |spans|
    requires parentId == spans[End(path)].id && depth == |path|
    decreases |spans| - |path|, |spans| - i
  {
    if i == |spans| then []
    else if spans[i].parent == parentId then
      PathFits(spans, path + [i]);
      [Visit(i, depth)]
      + DisplayChildren(spans, 0, spans[i].id, depth + 1, path + [i])
      + DisplayChildren(spans, i + 1, parentId, depth, path)
    else DisplayChildren(spans, i + 1, parentId, depth, path)
  }

  /** The first span without a parent, or the number of spans. */
  function FindRoot(spans: seq<Span>, i: nat): (r: nat)
    requires i <= |spans|
    ensures i <= r <= |spans|
    ensures r < |spans| ==> spans[r].parent == ""
    ensures forall k :: i <= k < r ==> spans[k].parent != ""
    decreases |spans| - i
  {
    if i == |spans| || spans[i].parent == "" then i else FindRoot(spans, i + 1)
  }

  function DisplayTraceTree(spans: seq<Span>): seq<Visit>
    requires UniqueIds(spans)
  {
    var root := FindRoot(spans, 0);
    if root == |spans| then []
    else [Visit(root, 0)] + DisplayChildren(spans, 0, spans[root].id, 1, [root])
  }

  // ---------- what the walk displays ----------

  ghost function Children(spans: seq<Span>, i: nat, path: seq<nat>): seq<Visit>
    requires UniqueIds(spans) && IsPath(spans, path) && i <= |spans|
  {
    PathFits(spans, path);
    DisplayChildren(spans, i, spans[End(path)].id, |path|, path)
  }

  /** q continues the path, starting with a child at position i or later. */
  ghost predicate Extends(spans: seq<Span>, path: seq<nat>, i: nat, q: seq<nat>) {
    q != [] && IsPath(spans, path + q) && q[0] >= i
  }

  ghost function EndVisit(path: seq<nat>, q: seq<nat>): Visit
    requires q != []
  {
    Visit(q[|q| - 1], |path| + |q| - 1)
  }

  lemma ChildExtends(spans: seq<Span>, path: seq<nat>, i: nat)
    requires IsPath(spans, path) && i < |spans|
    ensures IsPath(spans, path + [i]) <==> spans[i].parent == spans[End(path)].id
  {
    var p := path + [i];
    assert forall k :: 0 <= k < |path| ==> p[k] == path[k];
    assert p[|path|] == i && p[|path| - 1] == End(path);
  }

  lemma FirstStep(spans: seq<Span>, path: seq<nat>, i: nat, q: seq<nat>)
    requires IsPath(spans, path) && Extends(spans, path, i, q)
    ensures q[0] < |spans| && IsPath(spans, path + [q[0]])
  {
    assert (path + q)[|path|] == q[0];
    assert forall k :: 0 <= k <= |path| ==> (path + [q[0]])[k] == (path + q)[k];
  }

  /** Every span below the path is displayed, at its distance. */
  lemma {:induction false} ChildrenComplete(spans: seq<Span>, i: nat, path: seq<nat>, q: seq<nat>)
    requires UniqueIds(spans) && IsPath(spans, path) && i <= |spans| && Extends(spans, path, i, q)
    ensures EndVisit(path, q) in Children(spans, i, path)
    decreases |q|, |spans| - i
  {
    FirstStep(spans, path, i, q);
    ChildExtends(spans, path, q[0]);
    PathFits(spans, path);
    if q[0] > i {
      ChildrenComplete(spans, i + 1, path, q);
    } else if |q| > 1 {
      assert path + q == path + [i] + q[1..];
      ChildrenComplete(spans, 0, path + [i], q[1..]);
      assert EndVisit(path + [i], q[1..]) == EndVisit(path, q);
    }
  }

  /** Nothing else is displayed. */
  lemma {:induction false} ChildrenSound(spans: seq<Span>, i: nat, path: seq<nat>, v: Visit) returns (q: seq<nat>)
    requires UniqueIds(spans) && IsPath(spans, path) && i <= |spans| && v in Children(spans, i, path)
    ensures Extends(spans, path, i, q) && v == EndVisit(path, q)
    decreases |spans| - |path|, |spans| - i
  {
    PathFits(spans, path);
    if spans[i].parent == spans[End(path)].id {
      ChildExtends(spans, path, i);
      PathFits(spans, path + [i]);
      if v == Visit(i, |path|) {
        q := [i];
      } else if v in Children(spans, 0, path + [i]) {
        var rest := ChildrenSound(spans, 0, path + [i], v);
        q := [i] + rest;
        assert path + q == path + [i] + rest;
      } else {
        q := ChildrenSound(spans, i + 1, path, v);
      }
    } else {
      q := ChildrenSound(spans, i + 1, path, v);
    }
  }

  ghost predicate NoRepeats(vs: seq<Visit>) {
    forall a, b :: 0 <= a < b < |vs| ==> vs[a].index != vs[b].index
  }

  lemma NoRepeatsConcat(xs: seq<Visit>, ys: seq<Visit>)
    requires NoRepeats(xs) && NoRepeats(ys)
    requires forall x, y :: x in xs && y in ys ==> x.index != y.index
    ensures NoRepeats(xs + ys)
  {
  }

  /** Different continuations end in different spans. */
  lemma EndsDiffer(spans: seq<Span>, p: seq<nat>, q: seq<nat>, p': seq<nat>, q': seq<nat>)
    requires UniqueIds(spans) && q != [] && q' != []
    requires IsPath(spans, p + q) && IsPath(spans, p' + q') && p + q != p' + q'
    ensures q[|q| - 1] != q'[|q'| - 1]
  {
    assert End(p + q) == q[|q| - 1] && End(p' + q') == q'[|q'| - 1];
    if End(p + q) == End(p' + q') {
      PathUnique(spans, p + q, p' + q');
    }
  }

  /** Subtrees of different children have no span in common. */
  lemma SubtreesDisjoint(spans: seq<Span>, i: nat, path: seq<nat>, x: Visit, y: Visit)
    requires UniqueIds(spans) && IsPath(spans, path) && i < |spans| && IsPath(spans, path + [i])
    requires x == Visit(i, |path|) || x in Children(spans, 0, path + [i])
    requires y in Children(spans, i + 1, path)
    ensures x.index != y.index
  {
    var q := [i];
    if x != Visit(i, |path|) {
      var rest := ChildrenSound(spans, 0, path + [i], x);
      q := [i] + rest;
      assert path + q == path + [i] + rest;
    }
    var q' := ChildrenSound(spans, i + 1, path, y);
    assert (path + q)[|path|] == i && (path + q')[|path|] == q'[0];
    EndsDiffer(spans, path, q, path, q');
  }

  lemma ChildNotBelowItself(spans: seq<Span>, i: nat, path: seq<nat>, y: Visit)
    requires UniqueIds(spans) && IsPath(spans, path) && i < |spans| && IsPath(spans, path + [i])
    requires y in Children(spans, 0, path + [i])
    ensures i != y.index
  {
    var rest := ChildrenSound(spans, 0, path + [i], y);
    assert |path + [i]| != |path + [i] + rest|;
    EndsDiffer(spans, path, [i], path + [i], rest);
  }

  /** No span is displayed twice. */
  lemma {:induction false} ChildrenOnce(spans: seq<Span>, i: nat, path: seq<nat>)
    requires UniqueIds(spans) && IsPath(spans, path) && i <= |spans|
    ensures NoRepeats(Children(spans, i, path))
    decreases |spans| - |path|, |spans| - i
  {
    PathFits(spans, path);
    if i < |spans| {
      ChildrenOnce(spans, i + 1, path);
      if spans[i].parent == spans[End(path)].id {
        ChildExtends(spans, path, i);
        PathFits(spans, path + [i]);
        ChildrenOnce(spans, 0, path + [i]);
        var below, after := Children(spans, 0, path + [i]), Children(spans, i + 1, path);
        forall y | y in below ensures i != y.index {
          ChildNotBelowItself(spans, i, path, y);
        }
        NoRepeatsConcat([Visit(i, |path|)], below);
        forall x, y | x in [Visit(i, |path|)] + below && y in after ensures x.index != y.index {
          SubtreesDisjoint(spans, i, path, x, y);
        }
        NoRepeatsConcat([Visit(i, |path|)] + below, after);
      }
    }
  }

  /** The span's parent is the given one, or displayed earlier, one level up. */
  ghost predicate ParentBefore(spans: seq<Span>, vs: seq<Visit>, k: nat, parentId: string, depth: nat)
    requires k < |vs| && forall a :: 0 <= a < |vs| ==> vs[a].index < |spans|
  {
    || (spans[vs[k].index].parent == parentId && vs[k].depth == depth)
    || exists a :: 0 <= a < k && spans[vs[k].index].parent == spans[vs[a].index].id && vs[k].depth == vs[a].depth + 1
  }

  ghost predicate InRange(spans: seq<Span>, vs: seq<Visit>) {
    forall a :: 0 <= a < |vs| ==> vs[a].index < |spans|
  }

  ghost predicate ParentsFirst(spans: seq<Span>, vs: seq<Visit>, parentId: string, depth: nat) {
    InRange(spans, vs) && forall k :: 0 <= k < |vs| ==> ParentBefore(spans, vs, k, parentId, depth)
  }

  lemma ParentsFirstConcat(spans: seq<Span>, xs: seq<Visit>, ys: seq<Visit>, parentId: string, depth: nat)
    requires ParentsFirst(spans, xs, parentId, depth) && ParentsFirst(spans, ys, parentId, depth)
    ensures ParentsFirst(spans, xs + ys, parentId, depth)
  {
    var vs := xs + ys;
    forall k | 0 <= k < |vs| ensures ParentBefore(spans, vs, k, parentId, depth) {
      if k < |xs| {
        assert ParentBefore(spans, xs, k, parentId, depth);
        assert forall a :: 0 <= a < |xs| ==> vs[a] == xs[a];
      } else {
        assert ParentBefore(spans, ys, k - |xs|, parentId, depth);
        assert forall a :: 0 <= a < |ys| ==> vs[|xs| + a] == ys[a];
      }
    }
  }

  lemma SubtreeParentsFirst(spans: seq<Span>, i: nat, below: seq<Visit>, depth: nat, parentId: string)
    requires i < |spans| && spans[i].parent == parentId && ParentsFirst(spans, below, spans[i].id, depth + 1)
    ensures ParentsFirst(spans, [Visit(i, depth)] + below, parentId, depth)
  {
    var vs := [Visit(i, depth)] + below;
    forall k | 0 <= k < |vs| ensures ParentBefore(spans, vs, k, parentId, depth) {
      if k > 0 {
        assert ParentBefore(spans, below, k - 1, spans[i].id, depth + 1);
        assert forall a :: 0 <= a < |below| ==> vs[1 + a] == below[a];
        assert vs[0] == Visit(i, depth);
      }
    }
  }

  lemma {:induction false} ChildrenParentsFirst(spans: seq<Span>, i: nat, path: seq<nat>)
    requires UniqueIds(spans) && IsPath(spans, path) && i <= |spans|
    ensures ParentsFirst(spans, Children(spans, i, path), spans[End(path)].id, |path|)
    decreases |spans| - |path|, |spans| - i
  {
    PathFits(spans, path);
    if i < |spans| {
      ChildrenParentsFirst(spans, i + 1, path);
      if spans[i].parent == spans[End(path)].id {
        ChildExtends(spans, path, i);
        PathFits(spans, path + [i]);
        ChildrenParentsFirst(spans, 0, path + [i]);
        SubtreeParentsFirst(spans, i, Children(spans, 0, path + [i]), |path|, spans[End(path)].id);
        ParentsFirstConcat(spans, [Visit(i, |path|)] + Children(spans, 0, path + [i]), Children(spans, i + 1, path),
                           spans[End(path)].id, |path|);
      }
    }
  }

  // ---------- the whole tree ----------

  /** j is in the root's subtree, at that distance from it. */
  ghost predicate Below(spans: seq<Span>, root: nat, j: nat, distance: nat) {
    exists p :: IsPath(spans, p) && p[0] == root && End(p) == j && |p| == distance + 1
  }

  lemma {:induction false} DisplayedIsBelow(spans: seq<Span>, v: Visit)
    requires UniqueIds(spans) && FindRoot(spans, 0) < |spans| && v in DisplayTraceTree(spans)
    ensures Below(spans, FindRoot(spans, 0), v.index, v.depth)
  {
    var root := FindRoot(spans, 0);
    var p := [root];
    assert IsPath(spans, p);
    if v != Visit(root, 0) {
      var q := ChildrenSound(spans, 0, [root], v);
      p := [root] + q;
    }
    assert IsPath(spans, p) && p[0] == root && End(p) == v.index && |p| == v.depth + 1;
  }

  lemma {:induction false} BelowIsDisplayed(spans: seq<Span>, v: Visit)
    requires UniqueIds(spans) && FindRoot(spans, 0) < |spans| && Below(spans, FindRoot(spans, 0), v.index, v.depth)
    ensures v in DisplayTraceTree(spans)
  {
    var root := FindRoot(spans, 0);
    var p :| IsPath(spans, p) && p[0] == root && End(p) == v.index && |p| == v.depth + 1;
    if |p| > 1 {
      assert p == [root] + p[1..];
      ChildrenComplete(spans, 0, [root], p[1..]);
    }
  }

  /** The walk displays exactly the root's subtree, each span at its distance from the root. */
  lemma {:induction false} TreeIsComplete(spans: seq<Span>, v: Visit)
    requires UniqueIds(spans) && FindRoot(spans, 0) < |spans|
    ensures v in DisplayTraceTree(spans) <==> Below(spans, FindRoot(spans, 0), v.index, v.depth)
  {
    if v in DisplayTraceTree(spans) {
      DisplayedIsBelow(spans, v);
    }
    if Below(spans, FindRoot(spans, 0), v.index, v.depth) {
      BelowIsDisplayed(spans, v);
    }
  }

  /** No span is displayed twice. */
  lemma TreeHasNoRepeats(spans: seq<Span>)
    requires UniqueIds(spans)
    ensures NoRepeats(DisplayTraceTree(spans))
  {
    var root := FindRoot(spans, 0);
    if root < |spans| {
      var below := Children(spans, 0, [root]);
      ChildrenOnce(spans, 0, [root]);
      forall y | y in below ensures root != y.index {
        var q := ChildrenSound(spans, 0, [root], y);
        assert End([root] + q) == y.index && |[root] + q| != |[root]|;
        if y.index == root {
          PathUnique(spans, [root] + q, [root]);
        }
      }
      NoRepeatsConcat([Visit(root, 0)], below);
    }
  }

  /** Every span but the root is displayed after its parent, one level deeper. */
  lemma TreeParentsFirst(spans: seq<Span>)
    requires UniqueIds(spans)
    ensures ParentsFirst(spans, DisplayTraceTree(spans), "", 0)
  {
    var root := FindRoot(spans, 0);
    if root < |spans| {
      ChildrenParentsFirst(spans, 0, [root]);
      SubtreeParentsFirst(spans, root, Children(spans, 0, [root]), 0, "");
    }
  }

  // ---------- when the walk ends, for any spans ----------

  /** The walk, giving up below the given number of levels. */
  function DisplayUpTo(spans: seq<Span>, i: nat, parentId: string, depth: nat, levels: nat): seq<Visit>
    requires i <= |spans|
    decreases levels, |spans| - i
  {
    if levels == 0 || i == |spans| then []
    else if spans[i].parent == parentId then
      [Visit(i, depth)]
      + DisplayUpTo(spans, 0, spans[i].id, depth + 1, levels - 1)
      + DisplayUpTo(spans, i + 1, parentId, depth, levels)
    else DisplayUpTo(spans, i + 1, parentId, depth, levels)
  }

  ghost predicate FromRoot(spans: seq<Span>, root: nat, p: seq<nat>) {
    IsPath(spans, p) && p[0] == root
  }

  ghost predicate Repeats(p: seq<nat>) {
    exists i, j :: 0 <= i < j < |p| && p[i] == p[j]
  }

  /** Some path of parent links from the root comes back to a span already on it. */
  ghost predicate Returns(spans: seq<Span>, root: nat) {
    exists p :: FromRoot(spans, root, p) && Repeats(p)
  }

  function WalkUpTo(spans: seq<Span>, root: nat, levels: nat): seq<Visit>
    requires root < |spans|
  {
    DisplayUpTo(spans, 0, spans[root].id, 1, levels)
  }

  /** From some number of levels on, more levels display nothing more: the recursion itself comes to an end. */
  ghost predicate Ends(spans: seq<Span>, root: nat)
    requires root < |spans|
  {
    exists enough: nat :: SettledAt(spans, root, enough)
  }

  ghost predicate SettledAt(spans: seq<Span>, root: nat, enough: nat)
    requires root < |spans|
  {
    forall levels: nat :: levels >= enough ==> WalkUpTo(spans, root, levels) == WalkUpTo(spans, root, enough)
  }

  lemma NoReturnFits(spans: seq<Span>, root: nat, p: seq<nat>)
    requires !Returns(spans, root) && FromRoot(spans, root, p)
    ensures |p| <= |spans|
  {
    assert !Repeats(p);
    PigeonHole(p, |spans|);
  }

  /** Without a return, one level per span is enough. */
  lemma {:induction false} LevelsSettle(spans: seq<Span>, root: nat, i: nat, path: seq<nat>, l: nat, m: nat)
    requires !Returns(spans, root) && FromRoot(spans, root, path) && i <= |spans|
    requires l + |path| > |spans| && m + |path| > |spans|
    ensures DisplayUpTo(spans, i, spans[End(path)].id, |path|, l)
         == DisplayUpTo(spans, i, spans[End(path)].id, |path|, m)
    decreases |spans| + 1 - |path|, |spans| - i
  {
    NoReturnFits(spans, root, path);
    if i == |spans| {
    } else {
      LevelsSettle(spans, root, i + 1, path, l, m);
      if spans[i].parent == spans[End(path)].id {
        ChildExtends(spans, path, i);
        NoReturnFits(spans, root, path + [i]);
        LevelsSettle(spans, root, 0, path + [i], l - 1, m - 1);
      }
    }
  }

  /** No span is displayed deeper than the levels allow. */
  lemma {:induction false} DepthBounded(spans: seq<Span>, i: nat, parentId: string, depth: nat, levels: nat, v: Visit)
    requires i <= |spans| && v in DisplayUpTo(spans, i, parentId, depth, levels)
    ensures v.depth < depth + levels
    decreases levels, |spans| - i
  {
    if spans[i].parent != parentId {
      DepthBounded(spans, i + 1, parentId, depth, levels, v);
    } else if v in DisplayUpTo(spans, 0, spans[i].id, depth + 1, levels - 1) {
      DepthBounded(spans, 0, spans[i].id, depth + 1, levels - 1, v);
    } else if v != Visit(i, depth) {
      DepthBounded(spans, i + 1, parentId, depth, levels, v);
    }
  }

  /** Every continuation of a path that the levels allow is displayed. */
  lemma {:induction false} LevelsReach(spans: seq<Span>, i: nat, path: seq<nat>, levels: nat, q: seq<nat>)
    requires IsPath(spans, path) && i <= |spans| && Extends(spans, path, i, q) && |q| <= levels
    ensures EndVisit(path, q) in DisplayUpTo(spans, i, spans[End(path)].id, |path|, levels)
    decreases |q|, |spans| - i
  {
    FirstStep(spans, path, i, q);
    ChildExtends(spans, path, q[0]);
    if q[0] > i {
      LevelsReach(spans, i + 1, path, levels, q);
    } else if |q| > 1 {
      assert path + q == path + [i] + q[1..];
      LevelsReach(spans, 0, path + [i], levels - 1, q[1..]);
      assert EndVisit(path + [i], q[1..]) == EndVisit(path, q);
    }
  }

  /** Going round once more. */
  lemma RoundAgain(spans: seq<Span>, root: nat, p: seq<nat>, i: nat, j: nat, q: seq<nat>)
    requires FromRoot(spans, root, p) && i < j < |p| && p[i] == p[j]
    requires FromRoot(spans, root, q) && End(q) == p[i]
    ensures FromRoot(spans, root, q + p[i + 1..j + 1]) && End(q + p[i + 1..j + 1]) == p[i]
  {
    var r := q + p[i + 1..j + 1];
    forall k | 0 < k < |r| ensures spans[r[k]].parent == spans[r[k - 1]].id {
      if k >= |q| {
        assert r[k] == p[i + 1 + (k - |q|)] && r[k - 1] == p[i + (k - |q|)];
      }
    }
  }

  /** A path that returns can be made as long as wanted. */
  lemma {:induction false} LongPath(spans: seq<Span>, root: nat, p: seq<nat>, i: nat, j: nat, n: nat)
    returns (q: seq<nat>)
    requires FromRoot(spans, root, p) && i < j < |p| && p[i] == p[j]
    ensures FromRoot(spans, root, q) && End(q) == p[i] && |q| > n
  {
    if n == 0 {
      q := p[..i + 1];
    } else {
      var shorter := LongPath(spans, root, p, i, j, n - 1);
      RoundAgain(spans, root, p, i, j, shorter);
      q := shorter + p[i + 1..j + 1];
    }
  }

  /** If some path returns, every further level displays something more. */
  lemma ReturnShows(spans: seq<Span>, root: nat, levels: nat)
    requires root < |spans| && Returns(spans, root)
    ensures WalkUpTo(spans, root, levels + 1) != WalkUpTo(spans, root, levels)
  {
    var p :| FromRoot(spans, root, p) && Repeats(p);
    var i, j :| 0 <= i < j < |p| && p[i] == p[j];
    var long := LongPath(spans, root, p, i, j, levels + 1);
    var q := long[1..levels + 2];
    assert [root] + q == long[..levels + 2];
    LevelsReach(spans, 0, [root], levels + 1, q);
    var v := EndVisit([root], q);
    assert v in WalkUpTo(spans, root, levels + 1) && v.depth == levels + 1;
    if v in WalkUpTo(spans, root, levels) {
      DepthBounded(spans, 0, spans[root].id, 1, levels, v);
    }
  }

  /**
    For any spans at all, with repeated or empty ids too: the walk from the root ends if and only if no
    path of parent links from the root comes back to a span already on it.
   */
  lemma WalkEndsIff(spans: seq<Span>)
    requires FindRoot(spans, 0) < |spans|
    ensures Ends(spans, FindRoot(spans, 0)) <==> !Returns(spans, FindRoot(spans, 0))
  {
    var root := FindRoot(spans, 0);
    if Returns(spans, root) {
      forall enough: nat ensures !SettledAt(spans, root, enough) {
        ReturnShows(spans, root, enough);
      }
    } else {
      assert FromRoot(spans, root, [root]);
      forall levels: nat | levels >= |spans| ensures WalkUpTo(spans, root, levels) == WalkUpTo(spans, root, |spans|) {
        LevelsSettle(spans, root, 0, [root], levels, |spans|);
      }
      assert SettledAt(spans, root, |spans|);
    }
  }

  /** Nothing else is displayed. */
  lemma {:induction false} LevelsSound(spans: seq<Span>, i: nat, path: seq<nat>, levels: nat, v: Visit)
    returns (q: seq<nat>)
    requires IsPath(spans, path) && i <= |spans|
    requires v in DisplayUpTo(spans, i, spans[End(path)].id, |path|, levels)
    ensures Extends(spans, path, i, q) && v == EndVisit(path, q) && |q| <= levels
    decreases levels, |spans| - i
  {
    if spans[i].parent == spans[End(path)].id {
      ChildExtends(spans, path, i);
      if v == Visit(i, |path|) {
        q := [i];
      } else if v in DisplayUpTo(spans, 0, spans[i].id, |path| + 1, levels - 1) {
        var rest := LevelsSound(spans, 0, path + [i], levels - 1, v);
        q := [i] + rest;
        assert path + q == path + [i] + rest;
      } else {
        q := LevelsSound(spans, i + 1, path, levels, v);
      }
    } else {
      q := LevelsSound(spans, i + 1, path, levels, v);
    }
  }

  lemma {:induction false} ShownIsBelow(spans: seq<Span>, levels: nat, v: Visit)
    requires FindRoot(spans, 0) < |spans| && v in WalkUpTo(spans, FindRoot(spans, 0), levels)
    ensures 1 <= v.depth <= levels && Below(spans, FindRoot(spans, 0), v.index, v.depth)
  {
    var root := FindRoot(spans, 0);
    var q := LevelsSound(spans, 0, [root], levels, v);
    var p := [root] + q;
    assert IsPath(spans, p) && p[0] == root && End(p) == v.index && |p| == v.depth + 1;
  }

  lemma {:induction false} BelowIsShown(spans: seq<Span>, levels: nat, v: Visit)
    requires FindRoot(spans, 0) < |spans| && 1 <= v.depth <= levels
    requires Below(spans, FindRoot(spans, 0), v.index, v.depth)
    ensures v in WalkUpTo(spans, FindRoot(spans, 0), levels)
  {
    var root := FindRoot(spans, 0);
    var p :| IsPath(spans, p) && p[0] == root && End(p) == v.index && |p| == v.depth + 1;
    assert [root] + p[1..] == p;
    LevelsReach(spans, 0, [root], levels, p[1..]);
  }

  /** For any spans, a walk of limited depth displays exactly the ends of the paths from the root that are so long. */
  lemma {:induction false} WalkUpToIsExact(spans: seq<Span>, levels: nat, v: Visit)
    requires FindRoot(spans, 0) < |spans|
    ensures v in WalkUpTo(spans, FindRoot(spans, 0), levels)
       <==> 1 <= v.depth <= levels && Below(spans, FindRoot(spans, 0), v.index, v.depth)
  {
    if v in WalkUpTo(spans, FindRoot(spans, 0), levels) {
      ShownIsBelow(spans, levels, v);
    }
    if 1 <= v.depth <= levels && Below(spans, FindRoot(spans, 0), v.index, v.depth) {
      BelowIsShown(spans, levels, v);
    }
  }

  /** Unique non-empty ids rule a return out, whatever the parent links are. */
  lemma UniqueIdsNeverReturn(spans: seq<Span>, root: nat)
    requires UniqueIds(spans)
    ensures !Returns(spans, root)
  {
    forall p | FromRoot(spans, root, p) ensures !Repeats(p) {
      forall i, j | 0 <= i < j < |p| ensures p[i] != p[j] {
        PathHasNoRepeats(spans, p, i, j);
      }
    }
  }

  /** With unique ids, as many levels as there are spans are enough. */
  lemma {:induction false} EnoughLevels(spans: seq<Span>, i: nat, path: seq<nat>, levels: nat)
    requires UniqueIds(spans) && IsPath(spans, path) && i <= |spans| && levels + |path| > |spans|
    ensures DisplayUpTo(spans, i, spans[End(path)].id, |path|, levels) == Children(spans, i, path)
    decreases |spans| - |path|, |spans| - i
  {
    PathFits(spans, path);
    if i < |spans| {
      EnoughLevels(spans, i + 1, path, levels);
      if spans[i].parent == spans[End(path)].id {
        ChildExtends(spans, path, i);
        PathFits(spans, path + [i]);
        EnoughLevels(spans, 0, path + [i], levels - 1);
      }
    }
  }

  /** A span that repeats its parent's id is its own child: the walk does not end. */
  lemma RepeatedIdNeverEnds(spans: seq<Span>)
    requires spans == [Span("a", ""), Span("a", "a")]
    ensures FindRoot(spans, 0) == 0 && !Ends(spans, 0)
  {
    var p := [0, 1, 1];
    assert FromRoot(spans, 0, p) && p[1] == p[2];
    WalkEndsIff(spans);
  }

  ghost predicate HasChild(spans: seq<Span>, i: nat) {
    i < |spans| && exists c :: 0 <= c < |spans| && spans[c].parent == spans[i].id
  }

  lemma InnerHasChild(spans: seq<Span>, p: seq<nat>, k: nat)
    requires IsPath(spans, p) && k + 1 < |p|
    ensures HasChild(spans, p[k])
  {
    assert spans[p[k + 1]].parent == spans[p[k + 1 - 1]].id;
  }

  /** Two leaves that share an id do no harm. */
  lemma RepeatedLeafEnds(spans: seq<Span>)
    requires spans == [Span("r", ""), Span("x", "r"), Span("x", "r")]
    ensures FindRoot(spans, 0) == 0 && Ends(spans, 0)
  {
    assert forall i: nat :: HasChild(spans, i) ==> i == 0;
    forall p | FromRoot(spans, 0, p) ensures !Repeats(p) {
      if |p| > 1 {
        assert spans[p[1]].parent == spans[p[0]].id;
        if |p| > 2 {
          InnerHasChild(spans, p, 1);
        }
      }
    }
    WalkEndsIff(spans);
  }
}
