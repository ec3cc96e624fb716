/** Exact-arithmetic vectors: the numpy expressions the backtester is written in,
    and the inequalities its diagnostics rely on. */
module Vectors {

  type Vec = seq<real>

  function Abs(x: real): real {
    if x < 0.0 then -x else x
  }

  function Max(x: real, y: real): real {
    if x < y then y else x
  }

  function Min(x: real, y: real): real {
    if x < y then x else y
  }

  function Square(x: real): (s: real)
    ensures 0.0 <= s
    ensures s == 0.0 <==> x == 0.0
  {
    var s := x * x;
    SquareSign(x, s);
    s
  }

  lemma SquareSign(x: real, s: real)
    requires s == x * x
    ensures 0.0 <= s
    ensures s == 0.0 <==> x == 0.0
  {
    if 0.0 < x {
      ProductPositive(x, x, s);
    } else if x < 0.0 {
      ProductPositive(-x, -x, s);
    }
  }

  lemma ProductPositive(x: real, y: real, p: real)
    requires 0.0 < x && 0.0 < y
    requires p == x * y
    ensures 0.0 < p
  {
  }

  function Sum(v: Vec): real {
    if v == [] then 0.0 else Sum(v[..|v| - 1]) + v[|v| - 1]
  }

  function Zeros(n: nat): Vec {
    seq(n, _ => 0.0)
  }

  function AbsAll(v: Vec): Vec {
    seq(|v|, i requires 0 <= i < |v| => Abs(v[i]))
  }

  function Sub(u: Vec, v: Vec): Vec
    requires |u| == |v|
  {
    seq(|u|, i requires 0 <= i < |u| => u[i] - v[i])
  }

  function Mul(u: Vec, v: Vec): Vec
    requires |u| == |v|
  {
    seq(|u|, i requires 0 <= i < |u| => u[i] * v[i])
  }

  function Scaled(k: real, v: Vec): Vec {
    seq(|v|, i requires 0 <= i < |v| => k * v[i])
  }

  function Dot(u: Vec, v: Vec): real
    requires |u| == |v|
  {
    Sum(Mul(u, v))
  }

  function Gross(w: Vec): real {
    Sum(AbsAll(w))
  }

  function SumOfSquares(w: Vec): real {
    Dot(w, w)
  }

  function Concentration(gross: real, squares: real): real
    requires squares != 0.0
  {
    Square(gross) / squares
  }

  /** The largest entry, or the given floor when every entry is below it. */
  function MaxOf(v: Vec, initial: real): real {
    if v == [] then initial else Max(MaxOf(v[..|v| - 1], initial), v[|v| - 1])
  }

  function MaxAbs(w: Vec): real {
    MaxOf(AbsAll(w), 0.0)
  }

  // ----- pointwise reasoning about sums

  lemma {:induction false} SumMonotone(a: Vec, b: Vec)
    requires |a| == |b|
    requires forall i :: 0 <= i < |a| ==> a[i] <= b[i]
    ensures Sum(a) <= Sum(b)
  {
    if a != [] {
      SumMonotone(a[..|a| - 1], b[..|b| - 1]);
    }
  }

  lemma {:induction false} SumAdds(a: Vec, b: Vec, c: Vec)
    requires |a| == |b| == |c|
    requires forall i :: 0 <= i < |a| ==> c[i] == a[i] + b[i]
    ensures Sum(c) == Sum(a) + Sum(b)
  {
    if a != [] {
      var n := |a| - 1;
      SumAdds(a[..n], b[..n], c[..n]);
    }
  }

  lemma {:induction false} SumScales(k: real, a: Vec, c: Vec)
    requires |a| == |c|
    requires forall i :: 0 <= i < |a| ==> c[i] == k * a[i]
    ensures Sum(c) == k * Sum(a)
  {
    if a != [] {
      var n := |a| - 1;
      SumScales(k, a[..n], c[..n]);
    }
  }

  lemma SumPrefix(v: Vec, n: nat)
    requires n < |v|
    ensures Sum(v[..n + 1]) == Sum(v[..n]) + v[n]
  {
    assert v[..n + 1][..n] == v[..n];
  }

  lemma SumEmpty(v: Vec)
    ensures Sum(v[..0]) == 0.0
  {
  }

  lemma SumOfZeros(v: Vec)
    requires forall i :: 0 <= i < |v| ==> v[i] == 0.0
    ensures Sum(v) == 0.0
  {
    SumScales(0.0, v, v);
  }

  lemma SumNonNegative(v: Vec)
    requires forall i :: 0 <= i < |v| ==> 0.0 <= v[i]
    ensures 0.0 <= Sum(v)
  {
    SumOfZeros(Zeros(|v|));
    SumMonotone(Zeros(|v|), v);
  }

  lemma {:induction false} SumAtLeastEntry(v: Vec, k: nat)
    requires k < |v|
    requires forall i :: 0 <= i < |v| ==> 0.0 <= v[i]
    ensures v[k] <= Sum(v)
  {
    var n := |v| - 1;
    if k == n {
      SumNonNegative(v[..n]);
    } else {
      SumAtLeastEntry(v[..n], k);
    }
  }

  lemma {:induction false} SumAtMost(v: Vec, bound: real)
    requires forall i :: 0 <= i < |v| ==> v[i] <= bound
    ensures Sum(v) <= |v| as real * bound
  {
    if v != [] {
      var n := |v| - 1;
      SumAtMost(v[..n], bound);
      assert (n as real + 1.0) * bound == n as real * bound + bound;
    }
  }

  lemma {:induction false} MaxOfBounds(v: Vec, initial: real)
    ensures initial <= MaxOf(v, initial)
    ensures forall i :: 0 <= i < |v| ==> v[i] <= MaxOf(v, initial)
    ensures MaxOf(v, initial) == initial || MaxOf(v, initial) in v
  {
    if v != [] {
      MaxOfBounds(v[..|v| - 1], initial);
    }
  }

  // ----- gross exposure as a norm

  lemma GrossNonNegative(w: Vec)
    ensures 0.0 <= Gross(w)
  {
    SumNonNegative(AbsAll(w));
  }

  lemma GrossZero(w: Vec)
    ensures Gross(w) == 0.0 <==> forall i :: 0 <= i < |w| ==> w[i] == 0.0
  {
    if forall i :: 0 <= i < |w| ==> w[i] == 0.0 {
      SumOfZeros(AbsAll(w));
    } else {
      var k :| 0 <= k < |w| && w[k] != 0.0;
      SumAtLeastEntry(AbsAll(w), k);
    }
  }

  /** |u| <= |u - v| + |v| and |u - v| <= |u| + |v|. */
  lemma GrossTriangle(u: Vec, v: Vec)
    requires |u| == |v|
    ensures Gross(u) <= Gross(Sub(u, v)) + Gross(v)
    ensures Gross(v) <= Gross(Sub(u, v)) + Gross(u)
    ensures Gross(Sub(u, v)) <= Gross(u) + Gross(v)
  {
    var d, a, b := AbsAll(Sub(u, v)), AbsAll(u), AbsAll(v);
    var db := seq(|u|, i requires 0 <= i < |u| => d[i] + b[i]);
    var da := seq(|u|, i requires 0 <= i < |u| => d[i] + a[i]);
    var ab := seq(|u|, i requires 0 <= i < |u| => a[i] + b[i]);
    SumAdds(d, b, db);
    SumMonotone(a, db);
    SumAdds(d, a, da);
    SumMonotone(b, da);
    SumAdds(a, b, ab);
    SumMonotone(d, ab);
  }

  lemma GrossOfZeros(n: nat)
    ensures Gross(Zeros(n)) == 0.0
  {
    GrossZero(Zeros(n));
  }

  // ----- Cauchy-Schwarz

  lemma MulMonotone(x: real, y: real, k: real)
    requires 0.0 <= k
    requires x <= y
    ensures x * k <= y * k
  {
    assert 0.0 <= (y - x) * k;
  }

  lemma MulStrict(x: real, y: real, k: real)
    requires 0.0 < k
    requires x < y
    ensures x * k < y * k
  {
    assert 0.0 < (y - x) * k;
  }

  lemma Cancel(x: real, y: real, q: real)
    requires 0.0 < q
    requires x * q <= y * q
    ensures x <= y
  {
    if y < x {
      MulStrict(y, x, q);
    }
  }

  /** The same, the products given by what they are. */
  lemma CancelProducts(x: real, y: real, q: real, xq: real, yq: real)
    requires 0.0 < q && x * q == xq && y * q == yq && xq <= yq
    ensures x <= y
  {
    Cancel(x, y, q);
  }

  lemma SquareOfDifference(s: real, m: real, x: real)
    ensures 0.0 <= Square(s) - 2.0 * (m * (s * x)) + m * (m * Square(x))
  {
    var d := s - m * x;
    assert d * d == s * s - 2.0 * (m * (s * x)) + m * (m * (x * x));
    assert 0.0 <= Square(d);
  }

  lemma MixedTerm(m: real, t: real, p: real, r: real, q: real)
    requires 0.0 < m && t <= m * q && 0.0 <= t - 2.0 * (m * p) + m * (m * r)
    ensures 2.0 * p <= q + m * r
  {
    assert (2.0 * p) * m == 2.0 * (m * p);
    assert (q + m * r) * m == m * q + m * (m * r);
    CancelProducts(2.0 * p, q + m * r, m, 2.0 * (m * p), m * q + m * (m * r));
  }

  /** The inductive step of Cauchy-Schwarz: s^2 <= n q lets one more term x in. */
  lemma CauchyStep(n: nat, s: real, q: real, x: real)
    requires Square(s) <= n as real * q
    requires 0.0 <= q
    ensures Square(s + x) <= (n as real + 1.0) * (q + Square(x))
  {
    var m := n as real;
    assert Square(s + x) == Square(s) + 2.0 * (s * x) + Square(x);
    assert (m + 1.0) * (q + Square(x)) == m * q + q + m * Square(x) + Square(x);
    if n == 0 {
      assert s * x == 0.0;
    } else {
      SquareOfDifference(s, m, x);
      MixedTerm(m, Square(s), s * x, Square(x), q);
    }
  }

  lemma {:induction false} CauchySchwarz(a: Vec)
    ensures 0.0 <= SumOfSquares(a)
    ensures Square(Sum(a)) <= |a| as real * SumOfSquares(a)
  {
    if a != [] {
      var n := |a| - 1;
      CauchySchwarz(a[..n]);
      SquaresOfPrefix(a, n);
      CauchyStep(n, Sum(a[..n]), SumOfSquares(a[..n]), a[n]);
    }
  }

  lemma {:induction false} SquaresWithinSquare(a: Vec)
    requires forall i :: 0 <= i < |a| ==> 0.0 <= a[i]
    ensures SumOfSquares(a) <= Square(Sum(a))
  {
    if a != [] {
      var n := |a| - 1;
      SquaresWithinSquare(a[..n]);
      SquaresOfPrefix(a, n);
      SumNonNegative(a[..n]);
      assert Square(Sum(a)) == Square(Sum(a[..n])) + 2.0 * (Sum(a[..n]) * a[n]) + Square(a[n]);
      assert 0.0 <= Sum(a[..n]) * a[n];
    }
  }

  lemma SquaresOfPrefix(a: Vec, n: nat)
    requires n <= |a|
    ensures Mul(a, a)[..n] == Mul(a[..n], a[..n])
  {
    forall i | 0 <= i < n
      ensures Mul(a, a)[..n][i] == Mul(a[..n], a[..n])[i]
    {
      assert a[..n][i] == a[i];
    }
  }

  lemma AbsSquare(x: real)
    ensures Abs(x) * Abs(x) == x * x
  {
  }

  lemma SquaresOfAbs(w: Vec)
    ensures SumOfSquares(AbsAll(w)) == SumOfSquares(w)
  {
    var a := AbsAll(w);
    forall i | 0 <= i < |w|
      ensures Mul(a, a)[i] == Mul(w, w)[i]
    {
      AbsSquare(w[i]);
      assert a[i] == Abs(w[i]);
    }
    assert Mul(a, a) == Mul(w, w);
  }

  lemma SquaresBelowScaled(a: Vec, m: real)
    requires forall i :: 0 <= i < |a| ==> 0.0 <= a[i] <= m
    ensures SumOfSquares(a) <= Sum(Scaled(m, a))
  {
    forall i | 0 <= i < |a|
      ensures Mul(a, a)[i] <= Scaled(m, a)[i]
    {
      MulMonotone(a[i], m, a[i]);
    }
    SumMonotone(Mul(a, a), Scaled(m, a));
  }

  lemma ScaledSum(m: real, a: Vec)
    ensures Sum(Scaled(m, a)) == m * Sum(a)
  {
    SumScales(m, a, Scaled(m, a));
  }

  lemma SquareBounds(w: Vec)
    ensures 0.0 <= SumOfSquares(w) <= Square(Gross(w)) <= |w| as real * SumOfSquares(w)
  {
    SquaresOfAbs(w);
    CauchySchwarz(AbsAll(w));
    SquaresWithinSquare(AbsAll(w));
  }

  lemma SquaresBelowLargest(w: Vec)
    ensures SumOfSquares(w) <= Sum(Scaled(MaxAbs(w), AbsAll(w)))
  {
    SquaresOfAbs(w);
    LargestPosition(w);
    SquaresBelowScaled(AbsAll(w), MaxAbs(w));
  }

  lemma SquaresWithinLargest(w: Vec)
    ensures SumOfSquares(w) <= MaxAbs(w) * Gross(w)
  {
    SquaresBelowLargest(w);
    ScaledSum(MaxAbs(w), AbsAll(w));
  }

  lemma LargestPosition(w: Vec)
    ensures forall i :: 0 <= i < |w| ==> AbsAll(w)[i] <= MaxAbs(w)
  {
    MaxOfBounds(AbsAll(w), 0.0);
  }

  /** A portfolio's effective position count, gross^2 / sum of squares, is at least one
      and at most the number of positions; and the gross is at most the largest position
      times that count. */
  lemma EffectivePositions(w: Vec)
    requires 0.0 < Gross(w)
    ensures 0.0 < SumOfSquares(w)
    ensures 1.0 <= Concentration(Gross(w), SumOfSquares(w)) <= |w| as real
    ensures Gross(w) <= MaxAbs(w) * Concentration(Gross(w), SumOfSquares(w))
  {
    SquareBounds(w);
    SquaresWithinLargest(w);
    DivideBounds(Gross(w), SumOfSquares(w), MaxAbs(w), |w| as real);
  }

  lemma DivideBounds(g: real, q: real, m: real, n: real)
    requires 0.0 < g && 0.0 <= q
    requires q <= Square(g) <= n * q
    requires q <= m * g
    ensures 0.0 < q
    ensures 1.0 <= Concentration(g, q) <= n
    ensures g <= m * Concentration(g, q)
  {
    assert 0.0 < n * q;
    var e := Concentration(g, q);
    var s := Square(g);
    assert e * q == s;
    assert 1.0 * q == q;
    CancelProducts(1.0, e, q, q, s);
    CancelProducts(e, n, q, s, n * q);
    MulMonotone(q, m * g, g);
    var largest := m * g;
    assert g * q == q * g;
    assert m * e * q == m * (e * q) == m * s == largest * g;
    CancelProducts(g, m * e, q, q * g, largest * g);
  }
}
