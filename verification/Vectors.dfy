/** Vectors and the distance the index compares by, over exact numbers (internal/vector/distance.go). */
module Vectors {
  import opened Wrappers

  type Vector = seq<real>

  lemma PositiveProduct(x: real, y: real, product: real)
    requires x > 0.0 && y > 0.0 && product == x * y
    ensures product > 0.0
  {
  }

  lemma SquareNonNegative(d: real)
    ensures d * d >= 0.0
  {
    if d < 0.0 {
      PositiveProduct(-d, -d, d * d);
    }
  }

  function Square(x: real, y: real): (r: real)
    ensures r >= 0.0
  {
    var d := x - y;
    SquareNonNegative(d);
    d * d
  }

  lemma SquareSeparates(x: real, y: real)
    ensures Square(x, y) == Square(y, x)
    ensures x == y ==> Square(x, y) == 0.0
    ensures x != y ==> Square(x, y) > 0.0
  {
    if x > y {
      PositiveProduct(x - y, x - y, Square(x, y));
    } else if x < y {
      PositiveProduct(y - x, y - x, Square(x, y));
    }
  }

  /** The sum of the squared differences of the first `n` components. */
  function SumSquares(a: Vector, b: Vector, n: nat): (r: real)
    requires n <= |a| && n <= |b|
    ensures r >= 0.0
  {
    if n == 0 then 0.0 else SumSquares(a, b, n - 1) + Square(a[n - 1], b[n - 1])
  }

  /** The squared Euclidean distance of two vectors, over the components both have. */
  function Dist(a: Vector, b: Vector): (r: real)
    ensures r >= 0.0
  {
    SumSquares(a, b, if |a| <= |b| then |a| else |b|)
  }

  lemma {:induction false} SumSymmetric(a: Vector, b: Vector, n: nat)
    requires n <= |a| && n <= |b|
    ensures SumSquares(a, b, n) == SumSquares(b, a, n)
  {
    if n > 0 {
      SumSymmetric(a, b, n - 1);
      SquareSeparates(a[n - 1], b[n - 1]);
    }
  }

  lemma {:induction false} SumZero(a: Vector, b: Vector, n: nat)
    requires n <= |a| && n <= |b|
    ensures SumSquares(a, b, n) == 0.0 <==> a[..n] == b[..n]
  {
    if n > 0 {
      SumZero(a, b, n - 1);
      SquareSeparates(a[n - 1], b[n - 1]);
      assert a[..n] == a[..n - 1] + [a[n - 1]] && b[..n] == b[..n - 1] + [b[n - 1]];
    }
  }

  /** Distance is symmetric, and only equal vectors of one length are at distance zero. */
  lemma DistSeparates(a: Vector, b: Vector)
    requires |a| == |b|
    ensures Dist(a, b) == Dist(b, a)
    ensures Dist(a, b) == 0.0 <==> a == b
  {
    SumSymmetric(a, b, |a|);
    SumZero(a, b, |a|);
    assert a[..|a|] == a && b[..|a|] == b;
  }

  /** One more component adds the square of its difference, and there is nothing else in a distance. */
  lemma OneMoreComponent(a: Vector, b: Vector, x: real, y: real)
    requires |a| == |b|
    ensures Dist([], []) == 0.0
    ensures Dist(a + [x], b + [y]) == Dist(a, b) + (x - y) * (x - y)
  {
    SamePrefix(a, b, a + [x], b + [y], |a|);
  }

  lemma {:induction false} SamePrefix(a: Vector, b: Vector, c: Vector, d: Vector, n: nat)
    requires n <= |a| && n <= |b| && n <= |c| && n <= |d| && a[..n] == c[..n] && b[..n] == d[..n]
    ensures SumSquares(a, b, n) == SumSquares(c, d, n)
  {
    if n > 0 {
      assert a[..n - 1] == a[..n][..n - 1] && c[..n - 1] == c[..n][..n - 1];
      assert b[..n - 1] == b[..n][..n - 1] && d[..n - 1] == d[..n][..n - 1];
      SamePrefix(a, b, c, d, n - 1);
      assert a[n - 1] == a[..n][n - 1] && c[n - 1] == c[..n][n - 1];
      assert b[n - 1] == b[..n][n - 1] && d[n - 1] == d[..n][n - 1];
    }
  }

  lemma EightMore(a: Vector, b: Vector, i: nat)
    requires i + 8 <= |a| && i + 8 <= |b|
    ensures SumSquares(a, b, i + 8) == SumSquares(a, b, i) + (
      Square(a[i], b[i]) + Square(a[i + 1], b[i + 1]) + Square(a[i + 2], b[i + 2]) + Square(a[i + 3], b[i + 3]) +
      Square(a[i + 4], b[i + 4]) + Square(a[i + 5], b[i + 5]) + Square(a[i + 6], b[i + 6]) + Square(a[i + 7], b[i + 7]))
  {
    hide Square;
    assert SumSquares(a, b, i + 2) == SumSquares(a, b, i) + Square(a[i], b[i]) + Square(a[i + 1], b[i + 1]);
    assert SumSquares(a, b, i + 4) == SumSquares(a, b, i + 2) + Square(a[i + 2], b[i + 2]) + Square(a[i + 3], b[i + 3]);
    assert SumSquares(a, b, i + 6) == SumSquares(a, b, i + 4) + Square(a[i + 4], b[i + 4]) + Square(a[i + 5], b[i + 5]);
  }

  /** Eight components a step, then the rest: the same sum. `None` stands for NaN. */
  method L2Squared(a: Vector, b: Vector) returns (distance: Option<real>)
    ensures distance == if |a| == |b| then Some(Dist(a, b)) else None
  {
    hide Square;
    if |a| != |b| {
      return None;
    }
    var n := |a| - |a| % 8;
    var sum := 0.0;
    var i := 0;
    while i < n
      invariant 0 <= i <= n && i % 8 == 0
      invariant sum == SumSquares(a, b, i)
    {
      EightMore(a, b, i);
      sum := sum + (
        Square(a[i], b[i]) + Square(a[i + 1], b[i + 1]) + Square(a[i + 2], b[i + 2]) + Square(a[i + 3], b[i + 3]) +
        Square(a[i + 4], b[i + 4]) + Square(a[i + 5], b[i + 5]) + Square(a[i + 6], b[i + 6]) + Square(a[i + 7], b[i + 7]));
      i := i + 8;
    }
    while i < |a|
      invariant n <= i <= |a|
      invariant sum == SumSquares(a, b, i)
    {
      sum := sum + Square(a[i], b[i]);
      i := i + 1;
    }
    distance := Some(sum);
  }
}
