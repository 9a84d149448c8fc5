/**
 * `triangular_distribution` of risks/monte_carlo.py: one draw of a cost from the
 * triangular distribution with minimum `optimistic`, mode `mostLikely` and maximum
 * `pessimistic`, by inverting its cumulative distribution function.
 *
 * The global random generator is replaced by an explicit stream of draws and a
 * cursor; `math.sqrt` by a function parameter that `IsSqrt` describes.
 */
module Sampler {
  import opened Wrappers
  import opened RealArith

  /** The draws `random.random()` would return, in order. */
  type Draws = nat -> real

  /** Every draw lies in [0, 1), as `random.random()` promises. */
  ghost predicate UnitDraws(rand: Draws) {
    forall i: nat :: 0.0 <= rand(i) < 1.0
  }

  /** What is assumed of `math.sqrt` on non-negative arguments. */
  ghost predicate IsSqrt(sqrt: real -> real) {
    forall x: real :: SqrtSpec(sqrt, x)
  }

  /** `sqrt(x)` is the non-negative square root of `x` when `x` is non-negative. */
  ghost predicate SqrtSpec(sqrt: real -> real, x: real) {
    0.0 <= x ==> 0.0 <= sqrt(x) && sqrt(x) * sqrt(x) == x
  }

  /** The `ValueError` raised when the three points are out of order. */
  datatype DistributionError = InvalidDistributionParameters

  /** A sampled cost and the cursor after the draw it consumed. */
  datatype Sample = Sample(cost: real, next: nat)

  predicate Ordered(optimistic: real, mostLikely: real, pessimistic: real) {
    optimistic <= mostLikely <= pessimistic
  }

  /**
   * The order check comes before the draw, so a rejected call consumes nothing; an
   * accepted call consumes exactly the draw at `pos`, even in the zero-width case.
   */
  function TriangularDistribution(optimistic: real, mostLikely: real, pessimistic: real,
                                  rand: Draws, pos: nat, sqrt: real -> real): (r: Result<Sample, DistributionError>)
    ensures r.Failure? <==> !Ordered(optimistic, mostLikely, pessimistic)
    ensures r.Success? ==> r.value.next == pos + 1
    ensures r.Success? ==> r.value.cost == InverseCdf(optimistic, mostLikely, pessimistic, rand(pos), sqrt)
  {
    if !(optimistic <= mostLikely <= pessimistic) then
      Failure(InvalidDistributionParameters)
    else
      var u := rand(pos);
      Success(Sample(InverseCdf(optimistic, mostLikely, pessimistic, u, sqrt), pos + 1))
  }

  /**
   * The cost whose cumulative probability is `u`: `mostLikely` for a zero-width
   * distribution, otherwise the ascending or the descending side of the triangle.
   */
  function InverseCdf(optimistic: real, mostLikely: real, pessimistic: real, u: real,
                      sqrt: real -> real): real
  {
    if pessimistic == optimistic then
      mostLikely
    else
      var modeCdf := (mostLikely - optimistic) / (pessimistic - optimistic);
      if u < modeCdf then
        optimistic + sqrt(u * (pessimistic - optimistic) * (mostLikely - optimistic))
      else
        pessimistic - sqrt((1.0 - u) * (pessimistic - optimistic) * (pessimistic - mostLikely))
  }

  /** The square root of a square is its non-negative base. */
  lemma SqrtOfSquare(sqrt: real -> real, a: real, square: real)
    requires IsSqrt(sqrt)
    requires 0.0 <= a && square == a * a
    ensures sqrt(square) == a
  {
    assert SqrtSpec(sqrt, square);
    var s := sqrt(square);
    SquareStrict(s, a);
    SquareStrict(a, s);
  }

  /** `math.sqrt` is monotone: a consequence of `IsSqrt`, not an extra assumption. */
  lemma SqrtMonotone(sqrt: real -> real, x: real, y: real)
    requires IsSqrt(sqrt)
    requires 0.0 <= x <= y
    ensures 0.0 <= sqrt(x) <= sqrt(y)
    ensures x < y ==> sqrt(x) < sqrt(y)
  {
    assert SqrtSpec(sqrt, x) && SqrtSpec(sqrt, y);
    var sx, sy := sqrt(x), sqrt(y);
    SquareStrict(sy, sx);
  }

  /** Below the mode's CDF value the square-root argument stays under (m - o)². */
  lemma AscendingArgument(u: real, w: real, a: real, arg: real, square: real)
    requires 0.0 < w
    requires 0.0 <= u < a / w
    requires arg == u * w * a && square == a * a
    ensures 0.0 < a
    ensures 0.0 <= arg < square
  {
    assert u * w < a by {
      DivMul(a, w);
      MulStrict(u, a / w, w);
    }
    ScaledBelowSquare(u, w, a);
  }

  /** `0 <= u * w < a` bounds `u * w * a` by `a * a`. */
  lemma ScaledBelowSquare(u: real, w: real, a: real)
    requires 0.0 <= u && 0.0 < w && u * w < a
    ensures 0.0 <= u * w * a < a * a
  {
  }

  /** From the mode's CDF value on, the square-root argument stays within (p - m)². */
  lemma DescendingArgument(u: real, w: real, c: real, b: real, arg: real, square: real)
    requires 0.0 < w
    requires c / w <= u < 1.0
    requires b == w - c
    requires 0.0 <= b
    requires arg == (1.0 - u) * w * b && square == b * b
    ensures 0.0 <= arg <= square
  {
    DivMul(c, w);
    calc {
      (1.0 - u) * w;
    ==
      w - u * w;
    <= { MulMonotone(c / w, u, w); }
      w - (c / w) * w;
    ==
      b;
    }
    MulMonotone((1.0 - u) * w, b, b);
    MulMonotone(0.0, 1.0 - u, w);
    MulMonotone(0.0, (1.0 - u) * w, b);
  }

  /** Below the mode's CDF value the ascending branch lands in [optimistic, mostLikely). */
  lemma AscendingBranch(o: real, m: real, p: real, u: real, sqrt: real -> real)
    requires IsSqrt(sqrt)
    requires o <= m <= p && o < p
    requires 0.0 <= u < (m - o) / (p - o)
    ensures o <= o + sqrt(u * (p - o) * (m - o)) < m
  {
    var arg, square := u * (p - o) * (m - o), (m - o) * (m - o);
    AscendingArgument(u, p - o, m - o, arg, square);
    SqrtMonotone(sqrt, arg, square);
    SqrtOfSquare(sqrt, m - o, square);
  }

  /** From the mode's CDF value on, the descending branch lands in [mostLikely, pessimistic]. */
  lemma DescendingBranch(o: real, m: real, p: real, u: real, sqrt: real -> real)
    requires IsSqrt(sqrt)
    requires o <= m <= p && o < p
    requires (m - o) / (p - o) <= u < 1.0
    ensures m <= p - sqrt((1.0 - u) * (p - o) * (p - m)) <= p
  {
    var arg, square := (1.0 - u) * (p - o) * (p - m), (p - m) * (p - m);
    DescendingArgument(u, p - o, m - o, p - m, arg, square);
    SqrtMonotone(sqrt, arg, square);
    SqrtOfSquare(sqrt, p - m, square);
  }

  /**
   * Every accepted sample lies in [optimistic, pessimistic]; it is below `mostLikely`
   * exactly on the ascending branch, and it is `mostLikely` when the width is zero.
   */
  lemma TriangularInRange(o: real, m: real, p: real, rand: Draws, pos: nat, sqrt: real -> real)
    requires IsSqrt(sqrt)
    requires 0.0 <= rand(pos) < 1.0
    requires o <= m <= p
    ensures TriangularDistribution(o, m, p, rand, pos, sqrt).Success?
    ensures o <= TriangularDistribution(o, m, p, rand, pos, sqrt).value.cost <= p
    ensures o == p ==> TriangularDistribution(o, m, p, rand, pos, sqrt).value.cost == m
    ensures o < p ==> (TriangularDistribution(o, m, p, rand, pos, sqrt).value.cost < m
                       <==> rand(pos) < (m - o) / (p - o))
  {
    InverseCdfInRange(o, m, p, rand(pos), sqrt);
  }

  lemma InverseCdfInRange(o: real, m: real, p: real, u: real, sqrt: real -> real)
    requires IsSqrt(sqrt)
    requires 0.0 <= u < 1.0
    requires o <= m <= p
    ensures o <= InverseCdf(o, m, p, u, sqrt) <= p
    ensures o == p ==> InverseCdf(o, m, p, u, sqrt) == m
    ensures o < p ==> (InverseCdf(o, m, p, u, sqrt) < m <==> u < (m - o) / (p - o))
  {
    if o < p {
      if u < (m - o) / (p - o) {
        AscendingBranch(o, m, p, u, sqrt);
      } else {
        DescendingBranch(o, m, p, u, sqrt);
      }
    }
  }
}
