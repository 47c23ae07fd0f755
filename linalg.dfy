/** Dense linear algebra over exact reals: the handful of tensor operations
    (reduce_sum, matmul, transpose, column slicing) that the quantiser layers
    are built from. A matrix is a sequence of rows. */
module Linalg {

  type Vector = seq<real>
  type Matrix = seq<seq<real>>

  /** Every row of `m` has width `cols`. */
  predicate IsBatch(m: Matrix, cols: nat)
  {
    forall r :: 0 <= r < |m| ==> |m[r]| == cols
  }

  /** `m` has shape rows x cols. */
  predicate IsMatrix(m: Matrix, rows: nat, cols: nat)
  {
    |m| == rows && IsBatch(m, cols)
  }

  function Zeros(n: nat): (z: Vector)
    ensures |z| == n && forall i :: 0 <= i < n ==> z[i] == 0.0
  {
    seq(n, i => 0.0)
  }

  function VecAdd(u: Vector, v: Vector): (w: Vector)
    requires |u| == |v|
    ensures |w| == |u|
  {
    seq(|u|, i requires 0 <= i < |u| => u[i] + v[i])
  }

  /** reduce_sum of a vector. */
  function Sum(v: Vector): real
  {
    if |v| == 0 then 0.0 else v[0] + Sum(v[1..])
  }

  /** reduce_sum(v ** 2). */
  function SumOfSquares(v: Vector): real
  {
    if |v| == 0 then 0.0 else Square(v[0]) + SumOfSquares(v[1..])
  }

  /** Inner product, the entry of a matrix product. */
  function Dot(u: Vector, v: Vector): real
    requires |u| == |v|
  {
    if |u| == 0 then 0.0 else u[0] * v[0] + Dot(u[1..], v[1..])
  }

  /** Squared Euclidean distance, written directly as the sum over the
      coordinates of (u_d - v_d)^2. */
  function SqDist(u: Vector, v: Vector): (r: real)
    requires |u| == |v|
    ensures r >= 0.0
  {
    if |u| == 0 then 0.0 else Square(u[0] - v[0]) + SqDist(u[1..], v[1..])
  }

  /** Products and quotients of two reals are kept behind these functions, so that
      facts about their sign are stated once (PositiveProduct, SquarePositive)
      and used elsewhere as linear facts about the function values. */
  function Mul(a: real, b: real): real
  {
    a * b
  }

  function Div(a: real, b: real): real
    requires b != 0.0
  {
    a / b
  }

  /** Dividing and then multiplying back by a nonzero divisor is the
      identity. */
  lemma DivTimesDivisor(a: real, b: real)
    requires b != 0.0
    ensures Mul(Div(a, b), b) == a
  {
  }

  /** A common nonzero factor cancels from a quotient. */
  lemma CancelCommonFactor(a: real, b: real, f: real)
    requires b != 0.0 && f != 0.0
    ensures Mul(f, b) != 0.0 && Div(Mul(f, a), Mul(f, b)) == Div(a, b)
  {
  }

  function Square(c: real): (r: real)
    ensures r >= 0.0
  {
    SquareNonNegative(c);
    Mul(c, c)
  }

  lemma PositiveProduct(a: real, b: real)
    requires a > 0.0 && b > 0.0
    ensures Mul(a, b) > 0.0
  {
  }

  lemma NonNegativeProduct(a: real, b: real)
    requires a >= 0.0 && b >= 0.0
    ensures Mul(a, b) >= 0.0
  {
    if a > 0.0 && b > 0.0 {
      PositiveProduct(a, b);
    }
  }

  lemma SquareNonNegative(c: real)
    ensures Mul(c, c) >= 0.0
  {
    if c > 0.0 {
      PositiveProduct(c, c);
    } else if c < 0.0 {
      PositiveProduct(-c, -c);
      assert Mul(-c, -c) == Mul(c, c);
    }
  }

  lemma SquarePositive(c: real)
    requires c != 0.0
    ensures Square(c) > 0.0
  {
    if c > 0.0 {
      PositiveProduct(c, c);
    } else {
      PositiveProduct(-c, -c);
      assert Mul(-c, -c) == Mul(c, c);
    }
  }

  /** Column j of a matrix, m[:, j]. */
  function Column(m: Matrix, j: nat): (c: Vector)
    requires forall r :: 0 <= r < |m| ==> j < |m[r]|
    ensures |c| == |m|
  {
    seq(|m|, r requires 0 <= r < |m| => m[r][j])
  }

  function Transpose(m: Matrix, rows: nat, cols: nat): (t: Matrix)
    requires IsMatrix(m, rows, cols)
    ensures IsMatrix(t, cols, rows)
  {
    seq(cols, c requires 0 <= c < cols => Column(m, c))
  }

  /** tf.matmul of an n x m matrix by an m x p matrix. */
  function MatMul(a: Matrix, b: Matrix, n: nat, m: nat, p: nat): (c: Matrix)
    requires IsMatrix(a, n, m) && IsMatrix(b, m, p)
    ensures IsMatrix(c, n, p)
  {
    seq(n, i requires 0 <= i < n =>
      seq(p, j requires 0 <= j < p => Dot(a[i], Column(b, j))))
  }

  /** The expansion the layers use to avoid materialising differences:
      |u|^2 + |v|^2 - 2 u.v is the squared Euclidean distance. */
  lemma {:induction false} ExpandedSquaredDistance(u: Vector, v: Vector)
    requires |u| == |v|
    ensures SumOfSquares(u) + SumOfSquares(v) - 2.0 * Dot(u, v) == SqDist(u, v)
  {
    if |u| > 0 {
      ExpandedSquaredDistance(u[1..], v[1..]);
      var a, b := u[0], v[0];
      assert Square(a - b) == Square(a) + Square(b) - 2.0 * (a * b);
    }
  }

  /** The distance vanishes exactly on equal vectors. */
  lemma {:induction false} SqDistZeroIffEqual(u: Vector, v: Vector)
    requires |u| == |v|
    ensures SqDist(u, v) == 0.0 <==> u == v
  {
    if |u| > 0 {
      SqDistZeroIffEqual(u[1..], v[1..]);
      if SqDist(u, v) == 0.0 {
        if u[0] != v[0] {
          SquarePositive(u[0] - v[0]);
        }
        assert u == [u[0]] + u[1..] && v == [v[0]] + v[1..];
      }
    }
  }

  lemma {:induction false} SqDistSymmetric(u: Vector, v: Vector)
    requires |u| == |v|
    ensures SqDist(u, v) == SqDist(v, u)
  {
    if |u| > 0 {
      SqDistSymmetric(u[1..], v[1..]);
      assert Square(u[0] - v[0]) == Square(v[0] - u[0]);
    }
  }

  lemma {:induction false} SumOfAdd(u: Vector, v: Vector)
    requires |u| == |v|
    ensures Sum(VecAdd(u, v)) == Sum(u) + Sum(v)
  {
    if |u| > 0 {
      assert VecAdd(u, v)[1..] == VecAdd(u[1..], v[1..]);
      SumOfAdd(u[1..], v[1..]);
    }
  }

  lemma {:induction false} SumOfZeros(s: Vector)
    requires forall j :: 0 <= j < |s| ==> s[j] == 0.0
    ensures Sum(s) == 0.0
  {
    if |s| > 0 {
      SumOfZeros(s[1..]);
    }
  }

  /** A vector that is 1 at position i and 0 elsewhere sums to 1. */
  lemma {:induction false} SumOfUnit(s: Vector, i: nat)
    requires i < |s|
    requires forall j :: 0 <= j < |s| ==> s[j] == if j == i then 1.0 else 0.0
    ensures Sum(s) == 1.0
  {
    if i == 0 {
      SumOfZeros(s[1..]);
    } else {
      SumOfUnit(s[1..], i - 1);
    }
  }

  /** The inner product with a unit vector picks one coordinate out. */
  lemma {:induction false} DotUnit(s: Vector, v: Vector, i: nat)
    requires |s| == |v| && i < |s|
    requires forall j :: 0 <= j < |s| ==> s[j] == if j == i then 1.0 else 0.0
    ensures Dot(s, v) == v[i]
  {
    if i == 0 {
      DotZeros(s[1..], v[1..]);
    } else {
      DotUnit(s[1..], v[1..], i - 1);
    }
  }

  lemma {:induction false} DotZeros(s: Vector, v: Vector)
    requires |s| == |v|
    requires forall j :: 0 <= j < |s| ==> s[j] == 0.0
    ensures Dot(s, v) == 0.0
  {
    if |s| > 0 {
      DotZeros(s[1..], v[1..]);
    }
  }
}
