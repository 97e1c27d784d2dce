/**
 * The summary metrics of the explorer (mean, median, min, max, std) over the
 * values pandas keeps after coercion: NaN values are skipped, and a metric with
 * too few values is NaN.
 */
module Statistics {
  import opened Wrappers

  datatype Metric = Mean | Median | Min | Max | Std

  /** The metric's name as the code spells it ("mean", ...), used in headers and in the custom dialog. */
  function MetricName(m: Metric): string
  {
    match m
    case Mean => "mean"
    case Median => "median"
    case Min => "min"
    case Max => "max"
    case Std => "std"
  }

  /** Membership in custom_metrics: the metric a name denotes. */
  function ParseMetric(s: string): Option<Metric>
  {
    if s == "mean" then Some(Mean)
    else if s == "median" then Some(Median)
    else if s == "min" then Some(Min)
    else if s == "max" then Some(Max)
    else if s == "std" then Some(Std)
    else None
  }

  /** Names and metrics correspond one to one. */
  lemma ParseMetricName(m: Metric, s: string)
    ensures ParseMetric(MetricName(m)) == Some(m)
    ensures ParseMetric(s) == Some(m) ==> MetricName(m) == s
  {
  }

  /** One summary cell: NaN, an exact value, or the square root of an exact value (std). */
  datatype Stat = NaN | Value(v: real) | SqrtOf(radicand: real)

  /** The values a pandas reduction sees with skipna: the present ones, in order. */
  function Present(vals: seq<Option<real>>): (xs: seq<real>)
    ensures |xs| <= |vals|
  {
    if vals == [] then []
    else
      var n := |vals| - 1;
      var rest := Present(vals[..n]);
      if vals[n].Some? then rest + [vals[n].value] else rest
  }

  /**
   * Present keeps every present value once per occurrence, in order: `idx` gives,
   * increasingly, the position in `vals` of each kept value, and every position
   * holding a value appears in it.
   */
  lemma {:induction false} PresentIndices(vals: seq<Option<real>>) returns (idx: seq<nat>)
    ensures |idx| == |Present(vals)|
    ensures forall k :: 0 <= k < |idx| ==> idx[k] < |vals| && vals[idx[k]] == Some(Present(vals)[k])
    ensures forall k, l :: 0 <= k < l < |idx| ==> idx[k] < idx[l]
    ensures forall j :: 0 <= j < |vals| ==> (j in idx <==> vals[j].Some?)
  {
    if vals == [] {
      idx := [];
    } else {
      var n := |vals| - 1;
      var init := vals[..n];
      var before := PresentIndices(init);
      assert forall j :: 0 <= j < n ==> vals[j] == init[j];
      if vals[n].Some? {
        idx := before + [n];
      } else {
        idx := before;
      }
    }
  }

  /** A value is present iff some entry holds it. */
  lemma PresentIff(vals: seq<Option<real>>, x: real)
    ensures x in Present(vals) <==> Some(x) in vals
  {
    var idx := PresentIndices(vals);
    var xs := Present(vals);
    if x in xs {
      var k :| 0 <= k < |xs| && xs[k] == x;
      assert vals[idx[k]] == Some(x);
    }
    if Some(x) in vals {
      var j :| 0 <= j < |vals| && vals[j] == Some(x);
      assert j in idx;
      var k :| 0 <= k < |idx| && idx[k] == j;
      assert xs[k] == x;
    }
  }

  /** Present distributes over concatenation. */
  lemma {:induction false} PresentConcat(a: seq<Option<real>>, b: seq<Option<real>>)
    ensures Present(a + b) == Present(a) + Present(b)
  {
    if b == [] {
      assert a + b == a;
    } else {
      var n := |b| - 1;
      PresentConcat(a, b[..n]);
      assert (a + b)[..|a + b| - 1] == a + b[..n];
      assert (a + b)[|a + b| - 1] == b[n];
    }
  }

  function Sum(xs: seq<real>): real
  {
    if xs == [] then 0.0 else xs[0] + Sum(xs[1..])
  }

  function MeanOf(xs: seq<real>): real
    requires xs != []
  {
    Sum(xs) / |xs| as real
  }

  /** The smallest value: one of the values, and no value is below it. */
  function MinOf(xs: seq<real>): (m: real)
    requires xs != []
    ensures m in xs
    ensures forall x :: x in xs ==> m <= x
  {
    if |xs| == 1 then xs[0]
    else
      var rest := MinOf(xs[1..]);
      assert xs == [xs[0]] + xs[1..];
      if xs[0] <= rest then xs[0] else rest
  }

  /** The largest value: one of the values, and no value is above it. */
  function MaxOf(xs: seq<real>): (m: real)
    requires xs != []
    ensures m in xs
    ensures forall x :: x in xs ==> x <= m
  {
    if |xs| == 1 then xs[0]
    else
      var rest := MaxOf(xs[1..]);
      assert xs == [xs[0]] + xs[1..];
      if xs[0] >= rest then xs[0] else rest
  }

  predicate Sorted(s: seq<real>)
  {
    forall i, j :: 0 <= i < j < |s| ==> s[i] <= s[j]
  }

  function Insert(x: real, s: seq<real>): (r: seq<real>)
    requires Sorted(s)
    ensures Sorted(r)
    ensures multiset(r) == multiset(s) + multiset{x}
    ensures |r| == |s| + 1 && (r[0] == x || (s != [] && r[0] == s[0]))
  {
    if s == [] || x <= s[0] then [x] + s
    else
      assert s == [s[0]] + s[1..];
      [s[0]] + Insert(x, s[1..])
  }

  /** The values in non-decreasing order: a sorted permutation of the input. */
  function SortValues(xs: seq<real>): (r: seq<real>)
    ensures Sorted(r)
    ensures multiset(r) == multiset(xs)
  {
    if xs == [] then []
    else
      assert xs == [xs[0]] + xs[1..];
      Insert(xs[0], SortValues(xs[1..]))
  }

  /** The 50th percentile: the middle value, or the average of the two middle values. */
  function MedianOf(xs: seq<real>): real
    requires xs != []
  {
    var s := SortValues(xs);
    var n := |s|;
    assert |s| == |multiset(s)| == |multiset(xs)| == |xs|;
    if n % 2 == 1 then s[n / 2] else (s[n / 2 - 1] + s[n / 2]) / 2.0
  }

  function SquaredDeviations(xs: seq<real>, c: real): real
  {
    if xs == [] then 0.0 else (xs[0] - c) * (xs[0] - c) + SquaredDeviations(xs[1..], c)
  }

  /** Sample variance, divisor N - 1 (pandas' default ddof=1). */
  function Variance(xs: seq<real>): real
    requires |xs| >= 2
  {
    SquaredDeviations(xs, MeanOf(xs)) / (|xs| - 1) as real
  }

  /** One metric over a coerced slice: `vals.mean()`, `vals.median()`, ... with NaN for an empty slice. */
  function Compute(m: Metric, vals: seq<Option<real>>): Stat
  {
    var xs := Present(vals);
    match m
    case Mean => if xs == [] then NaN else Value(MeanOf(xs))
    case Median => if xs == [] then NaN else Value(MedianOf(xs))
    case Min => if xs == [] then NaN else Value(MinOf(xs))
    case Max => if xs == [] then NaN else Value(MaxOf(xs))
    case Std => if |xs| < 2 then NaN else SqrtOf(Variance(xs))
  }

  // ---------------------------------------------------------------- properties

  lemma {:induction false} SumBounds(xs: seq<real>, lo: real, hi: real)
    requires forall x :: x in xs ==> lo <= x <= hi
    ensures |xs| as real * lo <= Sum(xs) <= |xs| as real * hi
  {
    if xs != [] {
      var n := |xs| as real;
      assert forall x :: x in xs[1..] ==> x in xs;
      SumBounds(xs[1..], lo, hi);
      assert |xs[1..]| as real == n - 1.0;
      assert xs[0] in xs;
      assert n * lo == (n - 1.0) * lo + lo;
      assert n * hi == (n - 1.0) * hi + hi;
    }
  }

  /** The mean lies between the smallest and the largest value. */
  lemma MeanBetween(xs: seq<real>)
    requires xs != []
    ensures MinOf(xs) <= MeanOf(xs) <= MaxOf(xs)
  {
    var n := |xs| as real;
    SumBounds(xs, MinOf(xs), MaxOf(xs));
    QuotientBounds(Sum(xs), n, MinOf(xs), MaxOf(xs));
  }

  lemma QuotientBounds(total: real, n: real, lo: real, hi: real)
    requires n > 0.0 && n * lo <= total <= n * hi
    ensures lo <= total / n <= hi
  {
    var q := total / n;
    assert q * n == total;
    assert (q - lo) * n == total - lo * n;
    assert (hi - q) * n == hi * n - total;
  }

  /** The median lies between the smallest and the largest value. */
  lemma MedianBetween(xs: seq<real>)
    requires xs != []
    ensures MinOf(xs) <= MedianOf(xs) <= MaxOf(xs)
  {
    var s := SortValues(xs);
    assert |s| == |multiset(s)| == |multiset(xs)| == |xs|;
    forall k | 0 <= k < |s|
      ensures MinOf(xs) <= s[k] <= MaxOf(xs)
    {
      assert s[k] in multiset(s);
      assert s[k] in xs;
    }
    var n := |s|;
    if n % 2 == 0 {
      assert MinOf(xs) <= s[n / 2 - 1] && MinOf(xs) <= s[n / 2];
    }
  }

  lemma {:induction false} SquaredDeviationsNonNegative(xs: seq<real>, c: real)
    ensures SquaredDeviations(xs, c) >= 0.0
  {
    if xs != [] {
      SquaredDeviationsNonNegative(xs[1..], c);
      var d := xs[0] - c;
      assert d * d >= 0.0;
    }
  }

  /** The sample variance is never negative, so the square root std reports is real. */
  lemma VarianceNonNegative(xs: seq<real>)
    requires |xs| >= 2
    ensures Variance(xs) >= 0.0
  {
    SquaredDeviationsNonNegative(xs, MeanOf(xs));
  }

  /** A metric is NaN exactly when too few values are present: none, or fewer than two for std. */
  lemma ComputeNaNIff(m: Metric, vals: seq<Option<real>>)
    ensures Compute(m, vals) == NaN <==> |Present(vals)| < (if m == Std then 2 else 1)
  {
  }

  /** Over a single present value, mean, median, min and max all equal it and std is NaN. */
  lemma SingleValue(m: Metric, v: real)
    ensures Compute(m, [Some(v)]) == if m == Std then NaN else Value(v)
  {
    assert Present([Some(v)]) == [v];
    match m
    case Mean => assert Sum([v]) == v + Sum([]);
    case Median => assert SortValues([v]) == Insert(v, SortValues([])) == [v];
    case Min =>
    case Max =>
    case Std =>
  }

  /** Missing values never change a metric: they are skipped. */
  lemma {:induction false} MissingSkipped(m: Metric, vals: seq<Option<real>>, k: nat)
    requires k <= |vals|
    ensures Compute(m, vals[..k] + [None] + vals[k..]) == Compute(m, vals)
  {
    PresentSkipsNone(vals, k);
  }

  lemma {:induction false} PresentSkipsNone(vals: seq<Option<real>>, k: nat)
    requires k <= |vals|
    ensures Present(vals[..k] + [None] + vals[k..]) == Present(vals)
  {
    PresentConcat(vals[..k] + [None], vals[k..]);
    PresentConcat(vals[..k], [None]);
    PresentConcat(vals[..k], vals[k..]);
    assert Present([None]) == Present([]) == [];
    assert vals[..k] + vals[k..] == vals;
  }
}
