/** Cumulative histograms: every bucket counts the samples at or below its bound. */
module Histograms {
  import opened Folding

  datatype Bound = Finite(x: real) | Infinite

  datatype Bucket = Bucket(bound: Bound, count: nat)

  predicate Within(v: real, b: Bound) {
    b.Infinite? || v <= b.x
  }

  predicate Lower(a: Bound, b: Bound) {
    a.Finite? && (b.Infinite? || a.x < b.x)
  }

  datatype Histogram = Histogram(buckets: seq<Bucket>, total: nat, sum: real)

  function Count(b: Bucket, v: real): Bucket {
    if Within(v, b.bound) then b.(count := b.count + 1) else b
  }

  function AddSample(h: Histogram, v: real): Histogram {
    Histogram(seq(|h.buckets|, i requires 0 <= i < |h.buckets| => Count(h.buckets[i], v)), h.total + 1, h.sum + v)
  }

  const STANDARD_BOUNDS: seq<Bound> :=
    [Finite(0.005), Finite(0.01), Finite(0.025), Finite(0.05), Finite(0.075), Finite(0.1), Finite(0.25), Finite(0.5),
     Finite(0.75), Finite(1.0), Finite(2.5), Finite(5.0), Finite(7.5), Finite(10.0), Infinite]

  function Fresh(bounds: seq<Bound>): Histogram {
    Histogram(seq(|bounds|, i requires 0 <= i < |bounds| => Bucket(bounds[i], 0)), 0, 0.0)
  }

  class HistogramData {
    var buckets: seq<Bucket>
    var totalCount: nat
    var sum: real

    constructor ()
      ensures View() == Fresh([])
    {
      buckets, totalCount, sum := [], 0, 0.0;
    }

    function View(): Histogram
      reads this
    {
      Histogram(buckets, totalCount, sum)
    }

    method InitStandardBuckets()
      modifies this`buckets
      ensures View() == old(View()).(buckets := Fresh(STANDARD_BOUNDS).buckets)
    {
      buckets := seq(|STANDARD_BOUNDS|, i requires 0 <= i < |STANDARD_BOUNDS| => Bucket(STANDARD_BOUNDS[i], 0));
    }

    method Add(value: real)
      modifies this
      ensures View() == AddSample(old(View()), value)
    {
      sum := sum + value;
      totalCount := totalCount + 1;
      for i := 0 to |buckets|
        invariant |buckets| == |old(buckets)| && totalCount == old(totalCount) + 1 && sum == old(sum) + value
        invariant forall k :: 0 <= k < |buckets| ==>
                    buckets[k] == if k < i then Count(old(buckets)[k], value) else old(buckets)[k]
      {
        if Within(value, buckets[i].bound) {
          buckets := buckets[i := buckets[i].(count := buckets[i].count + 1)];
        }
      }
    }
  }

  // ---------- what the counts mean ----------

  function AtMost(b: Bound): real -> bool {
    (v: real) => Within(v, b)
  }

  /** Samples above a and at most b. */
  function Between(a: Bound, b: Bound): real -> bool {
    (v: real) => !Within(v, a) && Within(v, b)
  }

  function After(bounds: seq<Bound>, samples: seq<real>): Histogram {
    Fold(AddSample, Fresh(bounds), samples)
  }

  function TotalOf(samples: seq<real>): real {
    if samples == [] then 0.0 else TotalOf(samples[..|samples| - 1]) + samples[|samples| - 1]
  }

  lemma {:induction false} TotalsCountSamples(bounds: seq<Bound>, samples: seq<real>)
    ensures After(bounds, samples).total == |samples| && After(bounds, samples).sum == TotalOf(samples)
  {
    if samples == [] {
    } else {
      TotalsCountSamples(bounds, samples[..|samples| - 1]);
    }
  }

  /** Each bucket counts the samples at or below its bound, whatever order the bounds are in. */
  lemma {:induction false} BucketsCountSamples(bounds: seq<Bound>, samples: seq<real>)
    ensures var h := After(bounds, samples);
      && |h.buckets| == |bounds| && h.total == |samples|
      && forall i :: 0 <= i < |bounds| ==> h.buckets[i] == Bucket(bounds[i], |Filter(AtMost(bounds[i]), samples)|)
  {
    if samples == [] {
    } else {
      var n := |samples| - 1;
      BucketsCountSamples(bounds, samples[..n]);
      assert samples == samples[..n] + [samples[n]];
      forall i | 0 <= i < |bounds|
        ensures After(bounds, samples).buckets[i] == Bucket(bounds[i], |Filter(AtMost(bounds[i]), samples)|)
      {
        FilterAppend(AtMost(bounds[i]), samples[..n], samples[n]);
      }
    }
  }

  /** The positions of the samples above one value, if any, and at most another, if any. */
  function Positions(samples: seq<real>, above: Bound, upTo: Bound): set<nat> {
    set i: nat | i < |samples| && (above.Finite? ==> samples[i] > above.x) && (upTo.Finite? ==> samples[i] <= upTo.x)
  }

  lemma {:induction false} FilterCountsPositions(samples: seq<real>, b: Bound)
    ensures |Filter(AtMost(b), samples)| == |Positions(samples, Infinite, b)|
  {
    if samples == [] {
      assert Positions(samples, Infinite, b) == {};
    } else {
      var n := |samples| - 1;
      var front := samples[..n];
      FilterCountsPositions(front, b);
      var one: set<nat> := if b.Finite? ==> samples[n] <= b.x then {n} else {};
      assert Positions(samples, Infinite, b) == Positions(front, Infinite, b) + one;
    }
  }

  /**
    A bucket counts the samples whose value is at most its bound, position by position; one without bound
    counts all.
   */
  lemma BucketsCountPositions(bounds: seq<Bound>, samples: seq<real>, i: nat)
    requires i < |bounds|
    ensures |After(bounds, samples).buckets| == |bounds|
    ensures After(bounds, samples).buckets[i].count == |Positions(samples, Infinite, bounds[i])|
  {
    BucketsCountSamples(bounds, samples);
    FilterCountsPositions(samples, bounds[i]);
  }

  lemma PositionsSplit(samples: seq<real>, a: Bound, b: Bound)
    requires Lower(a, b)
    ensures |Positions(samples, Infinite, b)| == |Positions(samples, Infinite, a)| + |Positions(samples, a, b)|
  {
    assert Positions(samples, Infinite, b) == Positions(samples, Infinite, a) + Positions(samples, a, b);
    assert Positions(samples, Infinite, a) !! Positions(samples, a, b);
  }

  /** Neighbours with ascending bounds differ by the samples above the one and at most the other. */
  lemma NeighboursDiffer(bounds: seq<Bound>, samples: seq<real>, i: nat)
    requires i + 1 < |bounds| && Lower(bounds[i], bounds[i + 1])
    ensures var b := After(bounds, samples).buckets;
            |b| == |bounds| && b[i + 1].count - b[i].count == |Positions(samples, bounds[i], bounds[i + 1])|
  {
    BucketsCountPositions(bounds, samples, i);
    BucketsCountPositions(bounds, samples, i + 1);
    PositionsSplit(samples, bounds[i], bounds[i + 1]);
  }

  ghost predicate Ascending(bounds: seq<Bound>) {
    forall i, j :: 0 <= i < j < |bounds| ==> Lower(bounds[i], bounds[j])
  }

  lemma {:induction false} CountSplits(a: Bound, b: Bound, samples: seq<real>)
    requires Lower(a, b)
    ensures |Filter(AtMost(b), samples)| == |Filter(AtMost(a), samples)| + |Filter(Between(a, b), samples)|
  {
    if samples == [] {
    } else {
      CountSplits(a, b, samples[..|samples| - 1]);
    }
  }

  /**
    With ascending bounds the counts never decrease, and neighbours differ by exactly the samples that
    lie above the one bound and at or below the other.
   */
  lemma DifferencesCountIntervals(bounds: seq<Bound>, samples: seq<real>, i: nat)
    requires Ascending(bounds) && i + 1 < |bounds|
    ensures var b := After(bounds, samples).buckets;
      && |b| == |bounds| && b[i].count <= b[i + 1].count
      && b[i + 1].count - b[i].count == |Filter(Between(bounds[i], bounds[i + 1]), samples)|
  {
    BucketsCountSamples(bounds, samples);
    CountSplits(bounds[i], bounds[i + 1], samples);
  }

  /** The per-bucket numbers as they are printed: each count less the one before. */
  function Printed(buckets: seq<Bucket>): seq<int> {
    seq(|buckets|, i requires 0 <= i < |buckets| =>
      if i == 0 then buckets[0].count else buckets[i].count - buckets[i - 1].count)
  }

  function Sum(xs: seq<int>): int {
    if xs == [] then 0 else Sum(xs[..|xs| - 1]) + xs[|xs| - 1]
  }

  lemma {:induction false} PrintedTelescopes(buckets: seq<Bucket>)
    requires buckets != []
    ensures Sum(Printed(buckets)) == buckets[|buckets| - 1].count
  {
    var n := |buckets| - 1;
    assert Printed(buckets)[..n] == Printed(buckets[..n]);
    if n == 0 {
    } else {
      PrintedTelescopes(buckets[..n]);
    }
  }

  /** The printed numbers add up to the total exactly when no sample is above the last bound. */
  lemma PrintedSumsToTotalIff(bounds: seq<Bound>, samples: seq<real>)
    requires bounds != []
    ensures var h := After(bounds, samples);
            Sum(Printed(h.buckets)) == h.total <==> forall v :: v in samples ==> Within(v, bounds[|bounds| - 1])
  {
    BucketsCountSamples(bounds, samples);
    PrintedTelescopes(After(bounds, samples).buckets);
    FilterAll(AtMost(bounds[|bounds| - 1]), samples);
  }

  lemma {:induction false} NeighboursAscend(bounds: seq<Bound>)
    requires forall i :: 0 < i < |bounds| ==> Lower(bounds[i - 1], bounds[i])
    ensures Ascending(bounds)
  {
    if bounds == [] {
    } else {
      var n := |bounds| - 1;
      NeighboursAscend(bounds[..n]);
      forall i | 0 <= i < n ensures Lower(bounds[i], bounds[n]) {
        assert i < n - 1 ==> Lower(bounds[..n][i], bounds[..n][n - 1]);
      }
      assert forall i :: 0 <= i < n ==> bounds[..n][i] == bounds[i];
    }
  }

  lemma StandardAscending()
    ensures Ascending(STANDARD_BOUNDS) && |STANDARD_BOUNDS| == 15 && STANDARD_BOUNDS[14] == Infinite
  {
    NeighboursAscend(STANDARD_BOUNDS);
  }

  /** The standard bounds ascend and end with infinity, so their printed numbers always add up. */
  lemma StandardBucketsAddUp(samples: seq<real>)
    ensures Ascending(STANDARD_BOUNDS)
    ensures Sum(Printed(After(STANDARD_BOUNDS, samples).buckets)) == |samples|
  {
    StandardAscending();
    EndlessBucketsAddUp(STANDARD_BOUNDS, samples);
  }

  lemma EndlessBucketsAddUp(bounds: seq<Bound>, samples: seq<real>)
    requires bounds != [] && bounds[|bounds| - 1] == Infinite
    ensures Sum(Printed(After(bounds, samples).buckets)) == |samples|
  {
    BucketsCountSamples(bounds, samples);
    PrintedSumsToTotalIff(bounds, samples);
  }
}
