/** Facts about real products, proved where no other definition is in scope. */
module RealFacts {

  lemma PositiveSquare(x: real)
    requires 0.0 < x
    ensures 0.0 < x * x
  {
  }

  lemma Square(x: real)
    ensures 0.0 <= x * x
  {
    if x < 0.0 {
      PositiveSquare(-x);
      assert x * x == (-x) * (-x);
    } else if 0.0 < x {
      PositiveSquare(x);
    }
  }

  lemma ZeroFactor(a: real, b: real)
    requires a * b == 0.0
    ensures a == 0.0 || b == 0.0
  {
  }

  lemma EqualSquares(n: real, m: real)
    requires 0.0 <= n && 0.0 <= m && n * n == m * m
    ensures n == m
  {
    assert (n - m) * (n + m) == n * n - m * m;
    ZeroFactor(n - m, n + m);
  }

  lemma Mean(x: real, y: real)
    ensures 2.0 * (x * y) <= x * x + y * y
    ensures -(x * x + y * y) <= 2.0 * (x * y)
  {
    Square(x - y);
    Square(x + y);
    assert (x - y) * (x - y) == x * x - 2.0 * (x * y) + y * y;
    assert (x + y) * (x + y) == x * x + 2.0 * (x * y) + y * y;
  }
}

/** Products and quotients of reals, named so that proofs can rewrite inside them. */
module RealAlgebra {
  import RealFacts

  function Times(x: real, y: real): real {
    x * y
  }

  function Over(x: real, n: real): real
    requires n != 0.0
  {
    x / n
  }

  lemma SquaresDetermine(n: real, m: real)
    requires 0.0 <= n && 0.0 <= m && Times(n, n) == Times(m, m)
    ensures n == m
  {
    RealFacts.EqualSquares(n, m);
  }

  lemma CancelFactor(s: real, k: real)
    requires 0.0 < k && Times(s, k) == k
    ensures s == 1.0
  {
  }

  lemma PositiveProduct(a: real, b: real)
    requires 0.0 < a && 0.0 < b
    ensures 0.0 < Times(a, b)
  {
  }

  lemma NegateBoth(x: real)
    ensures Times(-x, -x) == Times(x, x)
  {
  }

  lemma ZeroTimes(x: real)
    ensures Times(0.0, x) == 0.0
  {
  }

  lemma SquareSign(x: real)
    ensures 0.0 <= Times(x, x)
    ensures x != 0.0 ==> 0.0 < Times(x, x)
    ensures x == 0.0 ==> Times(x, x) == 0.0
  {
    if x < 0.0 {
      PositiveProduct(-x, -x);
      NegateBoth(x);
    } else if 0.0 < x {
      PositiveProduct(x, x);
    } else {
      ZeroTimes(x);
    }
  }

  lemma DistributeSum(a: real, b: real, k: real)
    ensures Times(a + b, k) == Times(a, k) + Times(b, k)
  {
  }

  lemma SwapFactors(a: real, b: real, n: real, m: real)
    ensures Times(Times(a, b), Times(n, m)) == Times(Times(a, n), Times(b, m))
  {
    assert (a * b) * (n * m) == (a * n) * (b * m);
  }

  lemma QuotientTimes(x: real, n: real)
    requires n != 0.0
    ensures Times(Over(x, n), n) == x
  {
  }

  lemma ProductOfQuotients(x: real, y: real, n: real, m: real)
    requires n != 0.0 && m != 0.0
    ensures Times(Times(Over(x, n), Over(y, m)), Times(n, m)) == Times(x, y)
  {
    QuotientTimes(x, n);
    QuotientTimes(y, m);
    SwapFactors(Over(x, n), Over(y, m), n, m);
  }

  lemma ProductBelowMean(x: real, y: real)
    ensures 2.0 * Times(x, y) <= Times(x, x) + Times(y, y)
    ensures -(Times(x, x) + Times(y, y)) <= 2.0 * Times(x, y)
  {
    RealFacts.Mean(x, y);
  }

  lemma QuotientIs(q: real, x: real, n: real)
    requires n != 0.0 && Times(q, n) == x
    ensures Over(x, n) == q
  {
  }

  lemma QuotientScaled(x: real, n: real, c: real)
    requires 0.0 < n && 0.0 < c
    ensures 0.0 < Times(n, c) && Over(Times(x, c), Times(n, c)) == Over(x, n)
  {
    PositiveProduct(n, c);
    QuotientTimes(x, n);
    assert (x / n) * (n * c) == ((x / n) * n) * c;
    QuotientIs(Over(x, n), Times(x, c), Times(n, c));
  }

  lemma ProductsCommute(x: real, y: real)
    ensures Times(x, y) == Times(y, x)
  {
  }
}

/** Cosine similarity over exact reals. */
module VectorMath {
  import opened RealAlgebra

  type Vector = seq<real>

  function Dot(a: Vector, b: Vector): real
    requires |a| == |b|
  {
    if a == [] then 0.0 else Times(a[0], b[0]) + Dot(a[1..], b[1..])
  }

  function SumSquares(v: Vector): real {
    Dot(v, v)
  }

  /** What `math.hypot` computes: the non-negative root of the sum of squares. */
  ghost predicate IsNorm(v: Vector, n: real) {
    0.0 <= n && Times(n, n) == SumSquares(v)
  }

  function Divide(v: Vector, n: real): (r: Vector)
    requires n != 0.0
    ensures |r| == |v| && forall i :: 0 <= i < |v| ==> r[i] == Over(v[i], n)
  {
    seq(|v|, i requires 0 <= i < |v| => Over(v[i], n))
  }

  function Scale(v: Vector, c: real): (r: Vector)
    ensures |r| == |v| && forall i :: 0 <= i < |v| ==> r[i] == Times(v[i], c)
  {
    seq(|v|, i requires 0 <= i < |v| => Times(v[i], c))
  }

  /** The sum the store computes: products of the components, each divided by its vector's norm. */
  function CosineSum(left: Vector, right: Vector, leftNorm: real, rightNorm: real): real
    requires |left| == |right| && leftNorm != 0.0 && rightNorm != 0.0
  {
    Dot(Divide(left, leftNorm), Divide(right, rightNorm))
  }

  function Clamp(score: real): real {
    if score < -1.0 then -1.0 else if 1.0 < score then 1.0 else score
  }

  predicate Nonzero(v: Vector) {
    exists i :: 0 <= i < |v| && v[i] != 0.0
  }

  // ----- norms -----

  lemma NonzeroCons(v: Vector)
    requires v != []
    ensures Nonzero(v) <==> v[0] != 0.0 || Nonzero(v[1..])
  {
    if Nonzero(v) && v[0] == 0.0 {
      var i :| 0 <= i < |v| && v[i] != 0.0;
      assert v[1..][i - 1] != 0.0;
    }
    if Nonzero(v[1..]) {
      var i :| 0 <= i < |v[1..]| && v[1..][i] != 0.0;
      assert v[i + 1] != 0.0;
    }
  }

  lemma {:induction false} SumSquaresSign(v: Vector)
    ensures 0.0 <= SumSquares(v)
    ensures 0.0 < SumSquares(v) <==> Nonzero(v)
  {
    if v != [] {
      SumSquaresSign(v[1..]);
      SquareSign(v[0]);
      NonzeroCons(v);
    }
  }

  /** The norm is positive exactly for the vectors the store accepts. */
  lemma NormPositive(v: Vector, n: real)
    requires IsNorm(v, n)
    ensures 0.0 < n <==> Nonzero(v)
  {
    SumSquaresSign(v);
    SquareSign(n);
  }

  lemma NormUnique(v: Vector, n: real, m: real)
    requires IsNorm(v, n) && IsNorm(v, m)
    ensures n == m
  {
    SquaresDetermine(n, m);
  }

  // ----- the score -----

  lemma {:induction false} DotOfQuotients(a: Vector, b: Vector, n: real, m: real)
    requires |a| == |b| && n != 0.0 && m != 0.0
    ensures Times(Dot(Divide(a, n), Divide(b, m)), Times(n, m)) == Dot(a, b)
  {
    if a != [] {
      DotOfQuotients(a[1..], b[1..], n, m);
      assert Divide(a, n)[1..] == Divide(a[1..], n) && Divide(b, m)[1..] == Divide(b[1..], m);
      ProductOfQuotients(a[0], b[0], n, m);
      DistributeSum(Times(Over(a[0], n), Over(b[0], m)), Dot(Divide(a[1..], n), Divide(b[1..], m)), Times(n, m));
    }
  }

  /** A vector divided by its norm is a unit vector. */
  lemma UnitVector(v: Vector, n: real)
    requires IsNorm(v, n) && Nonzero(v)
    ensures 0.0 < n && SumSquares(Divide(v, n)) == 1.0
  {
    NormPositive(v, n);
    DotOfQuotients(v, v, n, n);
    PositiveProduct(n, n);
    CancelFactor(SumSquares(Divide(v, n)), Times(n, n));
  }

  lemma {:induction false} DotBelowMean(a: Vector, b: Vector)
    requires |a| == |b|
    ensures 2.0 * Dot(a, b) <= SumSquares(a) + SumSquares(b)
    ensures -(SumSquares(a) + SumSquares(b)) <= 2.0 * Dot(a, b)
  {
    if a != [] {
      DotBelowMean(a[1..], b[1..]);
      ProductBelowMean(a[0], b[0]);
    }
  }

  /** Cauchy-Schwarz, in the form the store computes it: the sum never leaves [-1, 1], so clamping
      changes nothing, and it is the inner product over the product of the norms. */
  lemma {:induction false} CosineIsBounded(left: Vector, right: Vector, leftNorm: real, rightNorm: real)
    requires |left| == |right| && Nonzero(left) && Nonzero(right)
    requires IsNorm(left, leftNorm) && IsNorm(right, rightNorm)
    ensures 0.0 < leftNorm && 0.0 < rightNorm
    ensures -1.0 <= CosineSum(left, right, leftNorm, rightNorm) <= 1.0
    ensures Clamp(CosineSum(left, right, leftNorm, rightNorm)) == CosineSum(left, right, leftNorm, rightNorm)
    ensures Times(CosineSum(left, right, leftNorm, rightNorm), Times(leftNorm, rightNorm)) == Dot(left, right)
  {
    UnitVector(left, leftNorm);
    UnitVector(right, rightNorm);
    DotBelowMean(Divide(left, leftNorm), Divide(right, rightNorm));
    DotOfQuotients(left, right, leftNorm, rightNorm);
  }

  lemma SelfCosine(v: Vector, n: real)
    requires Nonzero(v) && IsNorm(v, n)
    ensures 0.0 < n && CosineSum(v, v, n, n) == 1.0
  {
    UnitVector(v, n);
  }

  lemma {:induction false} DotSymmetric(a: Vector, b: Vector)
    requires |a| == |b|
    ensures Dot(a, b) == Dot(b, a)
  {
    if a != [] {
      DotSymmetric(a[1..], b[1..]);
      ProductsCommute(a[0], b[0]);
    }
  }

  lemma {:induction false} SumSquaresScaled(v: Vector, c: real)
    ensures SumSquares(Scale(v, c)) == Times(SumSquares(v), Times(c, c))
  {
    if v == [] {
      assert Times(0.0, Times(c, c)) == 0.0;
    } else {
      SumSquaresScaled(v[1..], c);
      assert Scale(v, c)[1..] == Scale(v[1..], c);
      SwapFactors(v[0], v[0], c, c);
      DistributeSum(Times(v[0], v[0]), SumSquares(v[1..]), Times(c, c));
    }
  }

  lemma ScaledNorm(v: Vector, n: real, c: real, scaledNorm: real)
    requires Nonzero(v) && 0.0 < c && IsNorm(v, n) && IsNorm(Scale(v, c), scaledNorm)
    ensures 0.0 < n && 0.0 < scaledNorm && scaledNorm == Times(n, c)
  {
    NormPositive(v, n);
    PositiveProduct(n, c);
    SumSquaresScaled(v, c);
    SwapFactors(n, n, c, c);
    SquaresDetermine(scaledNorm, Times(n, c));
  }

  lemma ScaledUnit(v: Vector, n: real, c: real)
    requires 0.0 < n && 0.0 < c
    ensures 0.0 < Times(n, c) && Divide(Scale(v, c), Times(n, c)) == Divide(v, n)
  {
    PositiveProduct(n, c);
    forall i | 0 <= i < |v|
      ensures Divide(Scale(v, c), Times(n, c))[i] == Divide(v, n)[i]
    {
      QuotientScaled(v[i], n, c);
    }
  }

  /** Scaling a vector by a positive factor scales its norm and leaves every score unchanged. */
  lemma ScalingKeepsScore(left: Vector, right: Vector, leftNorm: real, rightNorm: real, c: real, scaledNorm: real)
    requires |left| == |right| && Nonzero(left) && Nonzero(right) && 0.0 < c
    requires IsNorm(left, leftNorm) && IsNorm(right, rightNorm) && IsNorm(Scale(left, c), scaledNorm)
    ensures 0.0 < leftNorm && 0.0 < rightNorm && 0.0 < scaledNorm && scaledNorm == Times(leftNorm, c)
    ensures CosineSum(Scale(left, c), right, scaledNorm, rightNorm) == CosineSum(left, right, leftNorm, rightNorm)
  {
    NormPositive(right, rightNorm);
    ScaledNorm(left, leftNorm, c, scaledNorm);
    ScaledUnit(left, leftNorm, c);
  }
}
