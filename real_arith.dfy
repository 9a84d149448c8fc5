/** Facts about real multiplication that the solver does not find on its own. */
module RealArith {

  lemma MulMonotone(x: real, y: real, c: real)
    requires x <= y && 0.0 <= c
    ensures x * c <= y * c
    ensures c * x <= c * y
  {
    assert y * c - x * c == (y - x) * c;
  }

  lemma MulStrict(x: real, y: real, c: real)
    requires x < y && 0.0 < c
    ensures x * c < y * c
    ensures c * x < c * y
  {
    assert y * c - x * c == (y - x) * c;
  }

  /** Multiplying back by the divisor undoes a division. */
  lemma DivMul(a: real, w: real)
    requires 0.0 < w
    ensures (a / w) * w == a
  {
  }

  /** Dividing by a positive number keeps the order. */
  lemma DivMonotone(a: real, b: real, n: real)
    requires a <= b && 0.0 < n
    ensures a / n <= b / n
  {
    DivMul(a, n);
    DivMul(b, n);
  }

  /** Squaring is strictly increasing on the non-negative reals. */
  lemma SquareStrict(a: real, b: real)
    ensures 0.0 <= a < b ==> a * a < b * b
  {
    if 0.0 <= a < b {
      calc {
        a * a;
      <= { MulMonotone(a, b, a); }
        b * a;
      ==
        a * b;
      < { MulStrict(a, b, b); }
        b * b;
      }
    }
  }
}
