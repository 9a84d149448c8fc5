/**
 * `create_histogram_data` of risks/monte_carlo.py: equal-width binning of the
 * trial totals between their minimum and maximum, with midpoint labels.
 */
module HistogramData {
  import opened PyBuiltins
  import opened RealArith

  /** The `{'bins': ..., 'frequencies': ...}` dictionary. */
  datatype Histogram = Histogram(bins: seq<real>, frequencies: seq<nat>)

  const EmptyHistogram: Histogram := Histogram([], [])

  /**
   * `min(int((value - lo) / width), numBins - 1)`. The quotient is never negative,
   * so Python's truncating `int` is the floor here.
   */
  function BinIndex(value: real, lo: real, width: real, numBins: nat): (b: nat)
    requires 0.0 < width && lo <= value && 0 < numBins
    ensures b < numBins
  {
    DivMonotone(0.0, value - lo, width);
    var raw := ((value - lo) / width).Floor;
    if raw < numBins - 1 then raw else numBins - 1
  }

  ghost predicate AllAtLeast(data: seq<real>, lo: real) {
    forall k :: 0 <= k < |data| ==> lo <= data[k]
  }

  /** The counts after the values of `data` have been placed one after another. */
  function Frequencies(data: seq<real>, lo: real, width: real, numBins: nat): (f: seq<nat>)
    requires 0.0 < width && 0 < numBins && AllAtLeast(data, lo)
    ensures |f| == numBins
  {
    if data == [] then seq(numBins, _ => 0)
    else
      var f := Frequencies(data[..|data| - 1], lo, width, numBins);
      var b := BinIndex(data[|data| - 1], lo, width, numBins);
      f[b := f[b] + 1]
  }

  /** `bin_edges`: numBins + 1 equally spaced edges starting at `lo`. */
  function BinEdges(lo: real, width: real, numBins: nat): (e: seq<real>)
    ensures |e| == numBins + 1
  {
    seq(numBins + 1, i => lo + (i as real) * width)
  }

  /** The label of each bin: the midpoint of its two edges. */
  function Midpoints(edges: seq<real>): (m: seq<real>)
    requires |edges| > 0
    ensures |m| == |edges| - 1
  {
    seq(|edges| - 1, i requires 0 <= i < |edges| - 1 => (edges[i] + edges[i + 1]) / 2.0)
  }

  function BinWidth(lo: real, hi: real, numBins: nat): real
    requires 0 < numBins
  {
    (hi - lo) / (numBins as real)
  }

  /** What `create_histogram_data` returns, case by case. */
  function HistogramOf(data: seq<real>, numBins: nat): Histogram
    requires 0 < numBins
  {
    if data == [] then EmptyHistogram
    else
      var lo, hi := SeqMin(data), SeqMax(data);
      if lo == hi then Histogram([lo], [|data|])
      else
        var width := BinWidth(lo, hi, numBins);
        Histogram(Midpoints(BinEdges(lo, width, numBins)), Frequencies(data, lo, width, numBins))
  }

  /**
   * Splits `[min, max]` into `numBins` equal bins, counts the values into them and
   * labels each bin by its midpoint. `numBins` must be positive: the source divides by it.
   */
  method CreateHistogramData(data: seq<real>, numBins: nat := 20) returns (h: Histogram)
    requires 0 < numBins
    ensures h == HistogramOf(data, numBins)
    ensures data == [] ==> h == EmptyHistogram
    ensures data != [] ==> SumNat(h.frequencies) == |data| && |h.bins| == |h.frequencies|
  {
    if data == [] {
      return EmptyHistogram;
    }
    var lo := SeqMin(data);
    var hi := SeqMax(data);
    if lo == hi {
      h := Histogram([lo], [|data|]);
      assert SumNat(h.frequencies) == |data|;
      return;
    }
    var width := (hi - lo) / (numBins as real);
    BinWidthPositive(lo, hi, numBins);
    assert AllAtLeast(data, lo);
    var frequencies := CountIntoBins(data, lo, width, numBins);
    var labels := MidpointLabels(BinEdges(lo, width, numBins));
    h := Histogram(labels, frequencies);
  }

  /** The counting loop: one array cell per bin, bumped once per value. */
  method CountIntoBins(data: seq<real>, lo: real, width: real, numBins: nat) returns (counts: seq<nat>)
    requires 0.0 < width && 0 < numBins && AllAtLeast(data, lo)
    ensures counts == Frequencies(data, lo, width, numBins)
    ensures |counts| == numBins && SumNat(counts) == |data|
  {
    var frequencies := new nat[numBins](_ => 0);
    var i := 0;
    while i < |data|
      invariant 0 <= i <= |data|
      invariant frequencies[..] == Frequencies(data[..i], lo, width, numBins)
    {
      var b := BinIndex(data[i], lo, width, numBins);
      assert data[..i + 1][..i] == data[..i];
      frequencies[b] := frequencies[b] + 1;
      i := i + 1;
    }
    assert data[..|data|] == data;
    counts := frequencies[..];
    FrequenciesSum(data, lo, width, numBins);
  }

  /** The labelling loop: appends the midpoint of each pair of neighbouring edges. */
  method MidpointLabels(edges: seq<real>) returns (labels: seq<real>)
    requires |edges| > 0
    ensures labels == Midpoints(edges)
    ensures forall k :: 0 <= k < |labels| ==> edges[k] <= labels[k] <= edges[k + 1] || edges[k + 1] <= labels[k] <= edges[k]
  {
    labels := [];
    var k := 0;
    while k < |edges| - 1
      invariant 0 <= k <= |edges| - 1
      invariant labels == Midpoints(edges)[..k]
    {
      labels := labels + [(edges[k] + edges[k + 1]) / 2.0];
      k := k + 1;
    }
  }

  /** Every value is counted exactly once: the frequencies add up to the number of values. */
  lemma {:induction false} FrequenciesSum(data: seq<real>, lo: real, width: real, numBins: nat)
    requires 0.0 < width && 0 < numBins && AllAtLeast(data, lo)
    ensures SumNat(Frequencies(data, lo, width, numBins)) == |data|
  {
    if data == [] {
      SumNatZeros(numBins);
    } else {
      var prefix := data[..|data| - 1];
      FrequenciesSum(prefix, lo, width, numBins);
      SumNatIncrement(Frequencies(prefix, lo, width, numBins), BinIndex(data[|data| - 1], lo, width, numBins));
    }
  }

  /** The three shapes of the result: empty, one bin holding everything, or `numBins` bins. */
  lemma HistogramShape(data: seq<real>, numBins: nat)
    requires 0 < numBins
    ensures data == [] ==> HistogramOf(data, numBins) == Histogram([], [])
    ensures data != [] && SeqMin(data) == SeqMax(data) ==>
              HistogramOf(data, numBins) == Histogram([data[0]], [|data|])
    ensures data != [] && SeqMin(data) != SeqMax(data) ==>
              |HistogramOf(data, numBins).bins| == numBins
              && |HistogramOf(data, numBins).frequencies| == numBins
    ensures data != [] ==> SumNat(HistogramOf(data, numBins).frequencies) == |data|
  {
    if data != [] {
      if SeqMin(data) == SeqMax(data) {
        SingleBin(data, numBins);
      } else {
        HistogramConserves(data, numBins);
      }
    }
  }

  /** All values equal: one bin, labelled with that value, holding every value. */
  lemma SingleBin(data: seq<real>, numBins: nat)
    requires 0 < numBins && data != [] && SeqMin(data) == SeqMax(data)
    ensures HistogramOf(data, numBins) == Histogram([data[0]], [|data|])
    ensures SumNat(HistogramOf(data, numBins).frequencies) == |data|
  {
    assert SeqMin(data) <= data[0] <= SeqMax(data);
    assert SumNat([|data|]) == |data|;
  }

  /** Otherwise `numBins` labels and `numBins` counts that add up to the number of values. */
  lemma HistogramConserves(data: seq<real>, numBins: nat)
    requires 0 < numBins && data != [] && SeqMin(data) != SeqMax(data)
    ensures |HistogramOf(data, numBins).bins| == numBins
    ensures |HistogramOf(data, numBins).frequencies| == numBins
    ensures SumNat(HistogramOf(data, numBins).frequencies) == |data|
  {
    var lo, hi := SeqMin(data), SeqMax(data);
    var width := BinWidth(lo, hi, numBins);
    assert lo < hi by {
      assert lo <= data[0] <= hi;
    }
    BinWidthPositive(lo, hi, numBins);
    assert AllAtLeast(data, lo);
    assert HistogramOf(data, numBins)
           == Histogram(Midpoints(BinEdges(lo, width, numBins)), Frequencies(data, lo, width, numBins));
    FrequenciesSum(data, lo, width, numBins);
  }

  /** `(max - min) / numBins`, positive when max exceeds min. */
  lemma BinWidthPositive(lo: real, hi: real, numBins: nat)
    requires lo < hi && 0 < numBins
    ensures 0.0 < BinWidth(lo, hi, numBins)
    ensures (numBins as real) * BinWidth(lo, hi, numBins) == hi - lo
  {
    var n := numBins as real;
    DivMul(hi - lo, n);
    if BinWidth(lo, hi, numBins) <= 0.0 {
      MulMonotone(BinWidth(lo, hi, numBins), 0.0, n);
    }
  }

  /**
   * Each value lands in the bin whose edges bracket it; only the clamped last bin
   * also takes the value on its upper edge.
   */
  lemma BinIndexBrackets(value: real, lo: real, width: real, numBins: nat)
    requires 0.0 < width && lo <= value && 0 < numBins
    ensures var b := BinIndex(value, lo, width, numBins);
      && lo + (b as real) * width <= value
      && (b < numBins - 1 ==> value < lo + ((b + 1) as real) * width)
  {
    var q := (value - lo) / width;
    var b := BinIndex(value, lo, width, numBins);
    assert (b as real) <= q;
    calc {
      (b as real) * width;
    <= { MulMonotone(b as real, q, width); }
      q * width;
    == { DivMul(value - lo, width); }
      value - lo;
    }
    if b < numBins - 1 {
      assert q < (b + 1) as real;
      calc {
        value - lo;
      == { DivMul(value - lo, width); }
        q * width;
      < { MulStrict(q, (b + 1) as real, width); }
        ((b + 1) as real) * width;
      }
    }
  }

  /** The largest value is clamped into the last bin. */
  lemma MaxGoesToLastBin(lo: real, hi: real, numBins: nat)
    requires lo < hi && 0 < numBins
    ensures BinIndex(hi, lo, BinWidth(lo, hi, numBins), numBins) == numBins - 1
  {
    var width := BinWidth(lo, hi, numBins);
    BinWidthPositive(lo, hi, numBins);
    DivMul(hi - lo, width);
    assert (hi - lo) / width == numBins as real by {
      assert (numBins as real) * width == hi - lo;
      DivOfProduct(numBins as real, width);
    }
  }

  lemma DivOfProduct(a: real, w: real)
    requires 0.0 < w
    ensures (a * w) / w == a
  {
  }

  /** Consecutive edges are one bin width apart. */
  lemma EdgeStep(lo: real, width: real, numBins: nat, i: nat)
    requires i < numBins
    ensures BinEdges(lo, width, numBins)[i + 1] == BinEdges(lo, width, numBins)[i] + width
  {
    var edges := BinEdges(lo, width, numBins);
    assert edges[i] == lo + (i as real) * width;
    assert edges[i + 1] == lo + ((i + 1) as real) * width;
  }

  /** With a positive width the edges climb strictly. */
  lemma {:induction false} EdgesIncreasing(lo: real, width: real, numBins: nat, i: nat, j: nat)
    requires 0.0 < width && i < j <= numBins
    ensures BinEdges(lo, width, numBins)[i] < BinEdges(lo, width, numBins)[j]
    decreases j - i
  {
    EdgeStep(lo, width, numBins, j - 1);
    if i < j - 1 {
      EdgesIncreasing(lo, width, numBins, i, j - 1);
    }
  }

  /** Each label lies strictly between the two edges of its bin. */
  lemma LabelBetweenEdges(lo: real, width: real, numBins: nat, i: nat)
    requires 0.0 < width && i < numBins
    ensures BinEdges(lo, width, numBins)[i] < Midpoints(BinEdges(lo, width, numBins))[i]
    ensures Midpoints(BinEdges(lo, width, numBins))[i] < BinEdges(lo, width, numBins)[i + 1]
  {
    EdgeStep(lo, width, numBins, i);
  }

  /** Every label lies strictly inside (lo, lo + numBins * width). */
  lemma LabelsWithinRange(lo: real, width: real, numBins: nat)
    requires 0.0 < width
    ensures forall i :: 0 <= i < numBins ==>
      lo < Midpoints(BinEdges(lo, width, numBins))[i] < lo + (numBins as real) * width
  {
    var edges := BinEdges(lo, width, numBins);
    assert edges[0] == lo;
    assert edges[numBins] == lo + (numBins as real) * width;
    forall i | 0 <= i < numBins
      ensures lo < Midpoints(edges)[i] < lo + (numBins as real) * width
    {
      LabelBetweenEdges(lo, width, numBins, i);
      if 0 < i {
        EdgesIncreasing(lo, width, numBins, 0, i);
      }
      if i + 1 < numBins {
        EdgesIncreasing(lo, width, numBins, i + 1, numBins);
      }
    }
  }

  /** The labels climb strictly from bin to bin. */
  lemma LabelsIncreasing(lo: real, width: real, numBins: nat)
    requires 0.0 < width
    ensures forall i, j :: 0 <= i < j < numBins ==>
      Midpoints(BinEdges(lo, width, numBins))[i] < Midpoints(BinEdges(lo, width, numBins))[j]
  {
    forall i, j | 0 <= i < j < numBins
      ensures Midpoints(BinEdges(lo, width, numBins))[i] < Midpoints(BinEdges(lo, width, numBins))[j]
    {
      LabelBetweenEdges(lo, width, numBins, i);
      LabelBetweenEdges(lo, width, numBins, j);
      if i + 1 < j {
        EdgesIncreasing(lo, width, numBins, i + 1, j);
      }
    }
  }
}
