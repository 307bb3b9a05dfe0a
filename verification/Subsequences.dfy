/** Subsequences: what is left of a sequence when some elements are taken out, in order. */
module Subsequences {
  import opened Folding

  ghost predicate IsSubsequence<T>(a: seq<T>, b: seq<T>) {
    if a == [] then true
    else if b == [] then false
    else
      var n, m := |a| - 1, |b| - 1;
      (a[n] == b[m] && IsSubsequence(a[..n], b[..m])) || IsSubsequence(a, b[..m])
  }

  lemma {:induction false} SubRefl<T>(a: seq<T>)
    ensures IsSubsequence(a, a)
  {
    if a == [] {
    } else {
      SubRefl(a[..|a| - 1]);
    }
  }

  lemma {:induction false} SubLength<T>(a: seq<T>, b: seq<T>)
    requires IsSubsequence(a, b)
    ensures |a| <= |b|
    ensures |a| == |b| ==> a == b
  {
    if a == [] {
    } else {
      var n, m := |a| - 1, |b| - 1;
      assert a == a[..n] + [a[n]] && b == b[..m] + [b[m]];
      if a[n] == b[m] && IsSubsequence(a[..n], b[..m]) {
        SubLength(a[..n], b[..m]);
      } else {
        SubLength(a, b[..m]);
      }
    }
  }

  lemma {:induction false} SubTransitive<T>(a: seq<T>, b: seq<T>, c: seq<T>)
    requires IsSubsequence(a, b) && IsSubsequence(b, c)
    ensures IsSubsequence(a, c)
    decreases |b| + |c|
  {
    if a == [] {
    } else {
      var n, m, k := |a| - 1, |b| - 1, |c| - 1;
      if b[m] == c[k] && IsSubsequence(b[..m], c[..k]) {
        if a[n] == b[m] && IsSubsequence(a[..n], b[..m]) {
          SubTransitive(a[..n], b[..m], c[..k]);
        } else {
          SubTransitive(a, b[..m], c[..k]);
        }
      } else {
        SubTransitive(a, b, c[..k]);
      }
    }
  }

  lemma SubAppend<T>(a: seq<T>, b: seq<T>, x: T)
    requires IsSubsequence(a, b)
    ensures IsSubsequence(a + [x], b + [x])
  {
    assert (a + [x])[..|a|] == a && (b + [x])[..|b|] == b;
  }

  lemma SubSkip<T>(a: seq<T>, b: seq<T>, x: T)
    requires IsSubsequence(a, b)
    ensures IsSubsequence(a, b + [x])
  {
    assert (b + [x])[..|b|] == b;
  }

  lemma {:induction false} SubConcat<T>(p: seq<T>, a: seq<T>, b: seq<T>)
    requires IsSubsequence(a, b)
    ensures IsSubsequence(p + a, p + b)
  {
    if a == [] {
      assert p + a == p;
      SubPrefix(p, b);
    } else {
      var n, m := |a| - 1, |b| - 1;
      assert (p + b)[..|p + b| - 1] == p + b[..m];
      if a[n] == b[m] && IsSubsequence(a[..n], b[..m]) {
        SubConcat(p, a[..n], b[..m]);
        assert (p + a)[..|p + a| - 1] == p + a[..n];
      } else {
        SubConcat(p, a, b[..m]);
      }
    }
  }

  lemma {:induction false} SubPrefix<T>(p: seq<T>, b: seq<T>)
    ensures IsSubsequence(p, p + b)
  {
    if b == [] {
      assert p + b == p;
      SubRefl(p);
    } else {
      SubPrefix(p, b[..|b| - 1]);
      assert (p + b)[..|p + b| - 1] == p + b[..|b| - 1];
    }
  }

  lemma {:induction false} SubDropFirst<T>(a: seq<T>)
    requires a != []
    ensures IsSubsequence(a[1..], a)
  {
    if |a| > 1 {
      var n := |a| - 1;
      SubDropFirst(a[..n]);
      assert a[1..][..n - 1] == a[..n][1..];
    }
  }

  lemma {:induction false} SubFilter<T>(p: T -> bool, a: seq<T>)
    ensures IsSubsequence(Filter(p, a), a)
  {
    if a == [] {
    } else {
      var n := |a| - 1;
      SubFilter(p, a[..n]);
      assert a == a[..n] + [a[n]];
      if p(a[n]) {
        SubAppend(Filter(p, a[..n]), a[..n], a[n]);
      } else {
        SubSkip(Filter(p, a[..n]), a[..n], a[n]);
      }
    }
  }
}
