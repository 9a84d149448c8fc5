/**
 * The statistics block of `run_monte_carlo_simulation` (risks/monte_carlo.py):
 * mean, median, sample standard deviation, min, max and five nearest-rank
 * percentiles of the trial totals.
 */
module SummaryStatistics {
  import opened PyBuiltins
  import opened RealArith
  import opened Sampler

  datatype Statistics = Statistics(mean: real, median: real, stdDev: real,
                                   minCost: real, maxCost: real,
                                   p10: real, p25: real, p75: real, p90: real, p95: real)

  /** The block returned when there are no trial totals. */
  const ZeroStatistics: Statistics :=
    Statistics(0.0, 0.0, 0.0, 0.0, 0.0, 0.0, 0.0, 0.0, 0.0, 0.0)

  /** `statistics.mean`. */
  function Mean(s: seq<real>): real
    requires |s| > 0
  {
    Sum(s) / (|s| as real)
  }

  /** `statistics.median`: the middle of the sorted list, or the average of the two middles. */
  function Median(s: seq<real>): real
    requires |s| > 0
  {
    Middle(SortAscending(s))
  }

  /** The middle element of a list, or the average of the two middle ones. */
  function Middle(t: seq<real>): real
    requires |t| > 0
  {
    var n := |t|;
    if n % 2 == 1 then t[n / 2] else (t[n / 2 - 1] + t[n / 2]) / 2.0
  }

  function SquaredDeviations(s: seq<real>, centre: real): real {
    if s == [] then 0.0 else (s[0] - centre) * (s[0] - centre) + SquaredDeviations(s[1..], centre)
  }

  /** `statistics.stdev`: the square root of the sample variance (divisor n - 1). */
  function StdDev(s: seq<real>, sqrt: real -> real): real
    requires |s| > 1
  {
    sqrt(SquaredDeviations(s, Mean(s)) / ((|s| - 1) as real))
  }

  /**
   * `int(q * n)` for q = k / 100: the position of the k-th percentile in a sorted
   * list of n values, with exact arithmetic in place of floating point.
   */
  function PercentileIndex(k: nat, n: nat): nat {
    (k * n) / 100
  }

  /** The k-th percentile is always one of the values. */
  function Percentile(sorted: seq<real>, k: nat): (r: real)
    requires k < 100 && |sorted| > 0
    ensures r in sorted
  {
    PercentileIndexInRange(k, |sorted|);
    sorted[PercentileIndex(k, |sorted|)]
  }

  /** The statistics dictionary built when at least one trial ran. */
  function Summarize(results: seq<real>, sqrt: real -> real): Statistics
    requires |results| > 0
  {
    var sorted := SortAscending(results);
    Statistics(
      Mean(results),
      Median(results),
      if |results| > 1 then StdDev(results, sqrt) else 0.0,
      SeqMin(results),
      SeqMax(results),
      Percentile(sorted, 10),
      Percentile(sorted, 25),
      Percentile(sorted, 75),
      Percentile(sorted, 90),
      Percentile(sorted, 95))
  }

  /** Every percentile position below 100 falls inside a non-empty list. */
  lemma PercentileIndexInRange(k: nat, n: nat)
    requires k < 100 && n > 0
    ensures PercentileIndex(k, n) < n
  {
    assert k * n < 100 * n by {
      assert 100 * n - k * n == (100 - k) * n;
    }
  }

  /** A higher percentile never reads an earlier position. */
  lemma PercentileIndexMonotone(k: nat, j: nat, n: nat)
    requires k <= j
    ensures PercentileIndex(k, n) <= PercentileIndex(j, n)
  {
    assert k * n <= j * n by {
      assert j * n - k * n == (j - k) * n;
    }
  }

  /** The 25th percentile is at most, and the 75th at least, the median. */
  lemma QuartilesAroundMedian(s: seq<real>)
    requires |s| > 0
    ensures Percentile(SortAscending(s), 25) <= Median(s) <= Percentile(SortAscending(s), 75)
  {
    var t := SortAscending(s);
    var n := |t|;
    QuartileIndices(n);
    PercentileIndexInRange(75, n);
    MiddleBetween(t, PercentileIndex(25, n), PercentileIndex(75, n));
  }

  /** In a sorted list the middle lies between any positions on either side of it. */
  lemma MiddleBetween(t: seq<real>, i: nat, j: nat)
    requires IsSorted(t) && j < |t|
    requires |t| % 2 == 1 ==> i <= |t| / 2 <= j
    requires |t| % 2 == 0 ==> i + 1 <= |t| / 2 <= j
    ensures t[i] <= Middle(t) <= t[j]
  {
    var n := |t|;
    if n % 2 == 1 {
      assert t[i] <= t[n / 2];
      assert t[n / 2] <= t[j];
    } else {
      assert t[i] <= t[n / 2 - 1];
      assert t[n / 2 - 1] <= t[n / 2];
      assert t[n / 2] <= t[j];
    }
  }

  /** The quartile positions fall on either side of the middle position(s). */
  lemma QuartileIndices(n: nat)
    requires n > 0
    ensures n % 2 == 1 ==> PercentileIndex(25, n) <= n / 2 <= PercentileIndex(75, n)
    ensures n % 2 == 0 ==> PercentileIndex(25, n) <= n / 2 - 1 && n / 2 <= PercentileIndex(75, n)
  {
    var q1, q3 := PercentileIndex(25, n), PercentileIndex(75, n);
    assert 100 * q1 <= 25 * n;
    assert 75 * n < 100 * q3 + 100;
  }

  /**
   * With at least one trial: min <= p10 <= p25 <= median <= p75 <= p90 <= p95 <= max,
   * and the mean lies between min and max.
   */
  lemma StatisticsOrdered(results: seq<real>, sqrt: real -> real)
    requires |results| > 0
    ensures var st := Summarize(results, sqrt);
      && st.minCost <= st.p10 <= st.p25 <= st.median <= st.p75 <= st.p90 <= st.p95 <= st.maxCost
      && st.minCost <= st.mean <= st.maxCost
  {
    var t := SortAscending(results);
    var n := |t|;
    SortedEnds(results);
    PercentileIndexInRange(95, n);
    PercentileIndexMonotone(10, 25, n);
    PercentileIndexMonotone(75, 90, n);
    PercentileIndexMonotone(90, 95, n);
    QuartilesAroundMedian(results);
    MeanBounds(results, SeqMin(results), SeqMax(results));
  }

  /** A mean lies between any lower and upper bound of the values. */
  lemma MeanBounds(s: seq<real>, lo: real, hi: real)
    requires |s| > 0
    requires forall k :: 0 <= k < |s| ==> lo <= s[k] <= hi
    ensures lo <= Mean(s) <= hi
  {
    var total, n := Sum(s), |s| as real;
    assert n * lo <= total by { SumAtLeast(s, lo); }
    assert total <= n * hi by { SumAtMost(s, hi); }
    QuotientBounds(lo, total, hi, n);
  }

  /** `n * lo <= total <= n * hi` puts `total / n` between `lo` and `hi`. */
  lemma QuotientBounds(lo: real, total: real, hi: real, n: real)
    requires 0.0 < n
    requires n * lo <= total <= n * hi
    ensures lo <= total / n <= hi
  {
    DivMul(total, n);
    if total / n < lo {
      MulStrict(total / n, lo, n);
    }
    if total / n > hi {
      MulStrict(hi, total / n, n);
    }
  }

  /** A single trial has standard deviation 0 and every statistic equal to its total. */
  lemma SingleTrial(results: seq<real>, sqrt: real -> real)
    requires |results| == 1
    ensures var st := Summarize(results, sqrt);
      && st.stdDev == 0.0
      && st.mean == st.median == st.minCost == st.maxCost == results[0]
      && st.p10 == st.p25 == st.p75 == st.p90 == st.p95 == results[0]
  {
    var x := results[0];
    assert results == [x] && results[1..] == [];
    assert SortAscending(results) == [x];
    assert Sum(results) == x;
    assert PercentileIndex(95, 1) == 0;
  }

  /** The standard deviation is never negative. */
  lemma StdDevNonNegative(results: seq<real>, sqrt: real -> real)
    requires |results| > 1
    requires IsSqrt(sqrt)
    ensures StdDev(results, sqrt) >= 0.0
  {
    var d := SquaredDeviations(results, Mean(results));
    SquaredDeviationsNonNegative(results, Mean(results));
    var q := d / ((|results| - 1) as real);
    DivMonotone(0.0, d, (|results| - 1) as real);
    assert SqrtSpec(sqrt, q);
  }

  lemma {:induction false} SquaredDeviationsNonNegative(s: seq<real>, centre: real)
    ensures 0.0 <= SquaredDeviations(s, centre)
  {
    if s != [] {
      SquaredDeviationsNonNegative(s[1..], centre);
      var d := s[0] - centre;
      if d < 0.0 {
        MulMonotone(d, 0.0, -d);
        assert d * d == (-d) * (-d);
      }
      MulMonotone(0.0, d * d, 1.0);
    }
  }
}
