/** The running aggregates of one operation, and what they say about the samples that went in. */
module ProfileStats {
  import opened Folding

  const INT64_MAX: int := 0x7FFF_FFFF_FFFF_FFFF
  const TWO63: int := 0x8000_0000_0000_0000
  const TWO64: int := 0x1_0000_0000_0000_0000

  type Nanos = d: int | -TWO63 <= d < TWO63

  datatype Sample = Sample(name: string, duration: Nanos, success: bool)

  datatype Stats = Stats(calls: nat, errors: nat, total: int, min: int, max: int, avg: int)

  const EMPTY: Stats := Stats(0, 0, 0, INT64_MAX, 0, 0)

  /**
    The stored average.  The 64-bit signed total is divided by an unsigned call count, so a negative
    total is first read as an unsigned number and the quotient is read back as a signed one.
   */
  function Average(total: int, calls: nat): int
    requires calls > 0
  {
    var q := (if total < 0 then total + TWO64 else total) / calls;
    if q >= TWO63 then q - TWO64 else q
  }

  function Min(a: int, b: int): int { if b < a then b else a }

  function Max(a: int, b: int): int { if a < b then b else a }

  function AddSample(p: Stats, s: Sample): Stats {
    var calls := p.calls + 1;
    var total := p.total + s.duration;
    Stats(calls, if s.success then p.errors else p.errors + 1, total,
          Min(p.min, s.duration), Max(p.max, s.duration), Average(total, calls))
  }

  function Named(name: string): Sample -> bool {
    (s: Sample) => s.name == name
  }

  /** The aggregates of operation `name` after the given samples. */
  function Summarize(samples: seq<Sample>, name: string): Stats {
    Fold(AddSample, EMPTY, Filter(Named(name), samples))
  }

  function Failed(): Sample -> bool {
    (s: Sample) => !s.success
  }

  function TotalDuration(samples: seq<Sample>): int {
    if samples == [] then 0 else TotalDuration(samples[..|samples| - 1]) + samples[|samples| - 1].duration
  }

  lemma {:induction false} CountsAreExact(samples: seq<Sample>)
    ensures var p := Fold(AddSample, EMPTY, samples);
      && p.calls == |samples|
      && p.errors == |Filter(Failed(), samples)| <= p.calls
      && p.total == TotalDuration(samples)
      && (samples != [] ==> p.avg == Average(p.total, p.calls))
  {
    if samples == [] {
    } else {
      CountsAreExact(samples[..|samples| - 1]);
    }
  }

  function FailedPositions(samples: seq<Sample>): set<nat> {
    set i: nat | i < |samples| && !samples[i].success
  }

  lemma FailedAppend(front: seq<Sample>, s: Sample)
    ensures |FailedPositions(front + [s])| == |FailedPositions(front)| + if s.success then 0 else 1
  {
    var one: set<nat> := if s.success then {} else {|front|};
    assert FailedPositions(front + [s]) == FailedPositions(front) + one;
  }

  /** The error count is the number of samples that did not succeed. */
  lemma {:induction false} ErrorsCountFailures(samples: seq<Sample>)
    ensures Fold(AddSample, EMPTY, samples).errors == |FailedPositions(samples)|
  {
    if samples == [] {
      assert FailedPositions(samples) == {};
    } else {
      var front, s := samples[..|samples| - 1], samples[|samples| - 1];
      assert samples == front + [s];
      ErrorsCountFailures(front);
      FoldAppend(AddSample, EMPTY, front, s);
      FailedAppend(front, s);
    }
  }

  lemma {:induction false} MinimumIsExact(samples: seq<Sample>)
    ensures var p := Fold(AddSample, EMPTY, samples);
      && p.min <= INT64_MAX
      && (forall s :: s in samples ==> p.min <= s.duration)
      && (p.min == INT64_MAX || exists s :: s in samples && s.duration == p.min)
  {
    if samples == [] {
    } else {
      var front, last := samples[..|samples| - 1], samples[|samples| - 1];
      MinimumIsExact(front);
      assert samples == front + [last];
      assert last in samples && forall s :: s in front ==> s in samples;
    }
  }

  lemma {:induction false} MaximumIsExact(samples: seq<Sample>)
    ensures var p := Fold(AddSample, EMPTY, samples);
      && p.max >= 0
      && (forall s :: s in samples ==> s.duration <= p.max)
      && (p.max == 0 || exists s :: s in samples && s.duration == p.max)
  {
    if samples == [] {
    } else {
      var front, last := samples[..|samples| - 1], samples[|samples| - 1];
      MaximumIsExact(front);
      assert samples == front + [last];
      assert last in samples && forall s :: s in front ==> s in samples;
    }
  }

  /** Every aggregate is what its name says, for any samples. */
  lemma AggregatesAreExact(samples: seq<Sample>)
    ensures var p := Fold(AddSample, EMPTY, samples);
      && p.calls == |samples|
      && p.errors == |Filter(Failed(), samples)| <= p.calls
      && p.total == TotalDuration(samples)
      && (forall s :: s in samples ==> p.min <= s.duration <= p.max)
      && (samples == [] || exists s :: s in samples && s.duration == p.min)
      && (p.max == 0 || exists s :: s in samples && s.duration == p.max)
      && (samples != [] ==> p.avg == Average(p.total, p.calls))
  {
    CountsAreExact(samples);
    MinimumIsExact(samples);
    MaximumIsExact(samples);
    if samples != [] {
      assert samples[0] in samples;
    }
  }

  /** The total lies between `calls` times the minimum and `calls` times the maximum. */
  lemma {:induction false} TotalBracketed(samples: seq<Sample>)
    ensures var p := Fold(AddSample, EMPTY, samples);
            p.min * p.calls <= p.total <= p.max * p.calls
  {
    if samples == [] {
    } else {
      var n := |samples| - 1;
      TotalBracketed(samples[..n]);
      AggregatesAreExact(samples[..n]);
      BracketStep(Fold(AddSample, EMPTY, samples[..n]), samples[n]);
    }
  }

  lemma BracketStep(q: Stats, s: Sample)
    requires q.min * q.calls <= q.total <= q.max * q.calls
    ensures var p := AddSample(q, s);
            p.min * p.calls <= p.total <= p.max * p.calls
  {
    var p := AddSample(q, s);
    MulMonotone(p.min, q.min, q.calls);
    MulMonotone(q.max, p.max, q.calls);
    assert p.min * p.calls == p.min * q.calls + p.min;
    assert p.max * p.calls == p.max * q.calls + p.max;
  }

  lemma MulMonotone(a: int, b: int, k: nat)
    requires a <= b
    ensures a * k <= b * k
  {
  }

  /** The stored average is the (rounded down) mean exactly when the total is non-negative or there is one call. */
  lemma AverageIsMean(total: int, calls: nat)
    requires -TWO63 <= total < TWO63 && 1 <= calls
    ensures Average(total, calls) == total / calls <==> total >= 0 || calls == 1
  {
    if total >= 0 {
      QuotientBelow(total, calls, TWO63);
    } else if calls > 1 {
      var u := total + TWO64;
      assert u / calls <= u / 2 by {
        QuotientShrinks(u, calls);
      }
      assert 0 <= u / calls;
      NegativeQuotient(total, calls);
    }
  }

  /**
    A negative total over two calls or more: the stored average is the rounded quotient of the total read as
    an unsigned 64-bit number.
   */
  lemma AverageOfNegative(total: int, calls: nat)
    requires -TWO63 <= total < 0 && calls >= 2
    ensures var avg := Average(total, calls); 0 <= avg < TWO63 && avg * calls <= total + TWO64 < (avg + 1) * calls
  {
    var u := total + TWO64;
    QuotientShrinks(u, calls);
    QuotientExact(u, calls);
  }

  lemma QuotientExact(u: nat, k: nat)
    requires k >= 1
    ensures u / k * k <= u < (u / k + 1) * k
  {
  }

  lemma QuotientBelow(u: nat, k: nat, bound: nat)
    requires 1 <= k && u < bound
    ensures 0 <= u / k < bound
  {
  }

  lemma QuotientShrinks(u: nat, k: nat)
    requires k >= 2
    ensures u / k <= u / 2
  {
    var q := u / k;
    assert q * k <= u;
    assert q * 2 <= q * k;
  }

  lemma NegativeQuotient(t: int, k: nat)
    requires t < 0 && k >= 1
    ensures t / k < 0
  {
    var q := t / k;
    assert q * k <= t;
    assert q >= 0 ==> q * k >= 0;
  }

  /** Two calls lasting -1 each: the stored average is 2^63 - 1. */
  lemma NegativeAverageWraps()
    ensures var p := AddSample(AddSample(EMPTY, Sample("op", -1, true)), Sample("op", -1, true));
            p.total == -2 && p.avg == INT64_MAX && p.avg > p.max
  {
  }

  /** With a non-negative total (in particular, with non-negative durations) the average lies between min and max. */
  lemma AverageBracketed(samples: seq<Sample>)
    requires samples != [] && 0 <= TotalDuration(samples) < TWO63
    ensures var p := Fold(AddSample, EMPTY, samples); p.min <= p.avg <= p.max
  {
    var p := Fold(AddSample, EMPTY, samples);
    AggregatesAreExact(samples);
    TotalBracketed(samples);
    AverageIsMean(p.total, p.calls);
    QuotientBracketed(p.total, p.calls, p.min, p.max);
  }

  lemma QuotientBracketed(t: int, k: nat, lo: int, hi: int)
    requires k >= 1 && lo * k <= t <= hi * k
    ensures lo <= t / k <= hi
  {
    var q := t / k;
    assert q * k <= t < (q + 1) * k;
    assert (hi + 1) * k == hi * k + k;
    if lo > q {
      MulMonotone(q + 1, lo, k);
    }
    if q > hi {
      MulMonotone(hi + 1, q, k);
    }
  }

  lemma AddSampleCommutes()
    ensures Commutes(AddSample)
  {
    forall p: Stats, s: Sample, t: Sample ensures AddSample(AddSample(p, s), t) == AddSample(AddSample(p, t), s) {
      assert p.total + s.duration + t.duration == p.total + t.duration + s.duration;
    }
  }

  /** Any reordering of the samples leaves every operation's aggregates unchanged. */
  lemma OrderDoesNotMatter(xs: seq<Sample>, ys: seq<Sample>, name: string)
    requires multiset(xs) == multiset(ys)
    ensures Summarize(xs, name) == Summarize(ys, name)
  {
    AddSampleCommutes();
    FilterPermutation(Named(name), xs, ys);
    FoldPermutation(AddSample, EMPTY, Filter(Named(name), xs), Filter(Named(name), ys));
  }

  lemma SummarizeAppend(samples: seq<Sample>, s: Sample, name: string)
    ensures Summarize(samples + [s], name)
         == if s.name == name then AddSample(Summarize(samples, name), s) else Summarize(samples, name)
  {
    FilterAppend(Named(name), samples, s);
    var front := Filter(Named(name), samples);
    assert (front + [s])[..|front|] == front;
  }
}
