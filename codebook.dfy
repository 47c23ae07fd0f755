/** The codebook arithmetic shared by both quantiser layers: the distance
    matrix and arg-min of `get_code_indices`, the one-hot encoding, the
    per-codeword counts, the quantised value (one-hot times the transposed
    codebook), the per-codeword sums of assigned rows, the mean-squared losses,
    the straight-through output and the count of active codewords.

    A batch is N rows of width D; the codebook is a D x K matrix whose
    column j is codeword j. */
module Codebook {
  import opened Linalg

  // ---------------------------------------------------------------------
  // Nearest-codeword assignment
  // ---------------------------------------------------------------------

  /** The N x K distance matrix of get_code_indices: entry (n, j) is
      |x_n|^2 + |e_j|^2 - 2 x_n . e_j, the cross terms coming from one
      matrix product of the batch with the codebook. */
  function Distances(x: Matrix, e: Matrix, d: nat, k: nat): (dist: Matrix)
    requires IsBatch(x, d) && IsMatrix(e, d, k)
    ensures IsMatrix(dist, |x|, k)
  {
    var similarity := MatMul(x, e, |x|, d, k);
    var inputNorms := seq(|x|, n requires 0 <= n < |x| => SumOfSquares(x[n]));
    var codeNorms := seq(k, j requires 0 <= j < k => SumOfSquares(Column(e, j)));
    seq(|x|, n requires 0 <= n < |x| =>
      seq(k, j requires 0 <= j < k => inputNorms[n] + codeNorms[j] - 2.0 * similarity[n][j]))
  }

  /** Each entry of the distance matrix is the squared Euclidean distance
      between the row and the codeword. */
  lemma DistancesAreSquaredEuclidean(x: Matrix, e: Matrix, d: nat, k: nat)
    requires IsBatch(x, d) && IsMatrix(e, d, k)
    ensures forall n, j :: 0 <= n < |x| && 0 <= j < k ==>
      Distances(x, e, d, k)[n][j] == SqDist(x[n], Column(e, j))
  {
    forall n, j | 0 <= n < |x| && 0 <= j < k
      ensures Distances(x, e, d, k)[n][j] == SqDist(x[n], Column(e, j))
    {
      ExpandedSquaredDistance(x[n], Column(e, j));
    }
  }

  /** Entry i of the row is no larger than any other entry. */
  predicate IsRowMinimum(row: seq<real>, i: nat)
    requires i < |row|
  {
    forall j :: 0 <= j < |row| ==> row[i] <= row[j]
  }

  /** tf.argmin of one row. Which index wins a tie is not fixed by
      TensorFlow; this model lets the lowest index win (third ensures). */
  function ArgMin(row: seq<real>): (r: nat)
    requires |row| > 0
    ensures r < |row|
    ensures forall j :: 0 <= j < |row| ==> row[r] <= row[j]
    ensures forall j :: 0 <= j < r ==> row[r] < row[j]
  {
    if |row| == 1 then 0
    else
      var best := ArgMin(row[..|row| - 1]);
      if row[|row| - 1] < row[best] then |row| - 1 else best
  }

  /** get_code_indices: one codeword index per row, minimising the row's
      entry of the distance matrix. */
  function CodeIndices(x: Matrix, e: Matrix, d: nat, k: nat): (idx: seq<nat>)
    requires IsBatch(x, d) && IsMatrix(e, d, k) && k > 0
    ensures |idx| == |x|
    ensures forall n :: 0 <= n < |x| ==> idx[n] < k
    ensures forall n :: 0 <= n < |x| ==> IsRowMinimum(Distances(x, e, d, k)[n], idx[n])
  {
    var dist := Distances(x, e, d, k);
    seq(|x|, n requires 0 <= n < |x| => ArgMin(dist[n]))
  }

  /** The chosen codeword is a nearest one in squared Euclidean distance. */
  lemma CodeIndicesAreNearest(x: Matrix, e: Matrix, d: nat, k: nat)
    requires IsBatch(x, d) && IsMatrix(e, d, k) && k > 0
    ensures forall n, j :: 0 <= n < |x| && 0 <= j < k ==>
      SqDist(x[n], Column(e, CodeIndices(x, e, d, k)[n])) <= SqDist(x[n], Column(e, j))
  {
    DistancesAreSquaredEuclidean(x, e, d, k);
  }

  /** A row at distance zero from some codeword is assigned a codeword equal
      to it. */
  lemma ExactRowGetsEqualCodeword(x: Matrix, e: Matrix, d: nat, k: nat, n: nat, c: nat)
    requires IsBatch(x, d) && IsMatrix(e, d, k) && k > 0
    requires n < |x| && c < k && x[n] == Column(e, c)
    ensures Column(e, CodeIndices(x, e, d, k)[n]) == x[n]
  {
    var i := CodeIndices(x, e, d, k)[n];
    CodeIndicesAreNearest(x, e, d, k);
    SqDistZeroIffEqual(x[n], Column(e, c));
    SqDistZeroIffEqual(x[n], Column(e, i));
  }

  /** A row equal to codeword c, when no other codeword equals it, is
      assigned index c. */
  lemma ExactMatchIsSelected(x: Matrix, e: Matrix, d: nat, k: nat, n: nat, c: nat)
    requires IsBatch(x, d) && IsMatrix(e, d, k) && k > 0
    requires n < |x| && c < k && x[n] == Column(e, c)
    requires forall j :: 0 <= j < k && j != c ==> Column(e, j) != x[n]
    ensures CodeIndices(x, e, d, k)[n] == c
  {
    ExactRowGetsEqualCodeword(x, e, d, k, n, c);
  }

  /** The codewords named by `idx`, one row each. */
  function Select(e: Matrix, idx: seq<nat>, d: nat, k: nat): (q: Matrix)
    requires IsMatrix(e, d, k)
    requires forall n :: 0 <= n < |idx| ==> idx[n] < k
    ensures IsMatrix(q, |idx|, d)
  {
    seq(|idx|, n requires 0 <= n < |idx| => Column(e, idx[n]))
  }

  /** Looking up an already quantised batch returns the same codewords. */
  lemma LookupIsIdempotent(x: Matrix, e: Matrix, d: nat, k: nat)
    requires IsBatch(x, d) && IsMatrix(e, d, k) && k > 0
    ensures var q := Select(e, CodeIndices(x, e, d, k), d, k);
      Select(e, CodeIndices(q, e, d, k), d, k) == q
  {
    var q := Select(e, CodeIndices(x, e, d, k), d, k);
    var again := Select(e, CodeIndices(q, e, d, k), d, k);
    forall n | 0 <= n < |q|
      ensures again[n] == q[n]
    {
      ExactRowGetsEqualCodeword(q, e, d, k, n, CodeIndices(x, e, d, k)[n]);
    }
  }

  // ---------------------------------------------------------------------
  // One-hot encoding, counts and the quantised value
  // ---------------------------------------------------------------------

  function OneHotRow(i: nat, k: nat): (row: Vector)
    ensures |row| == k
  {
    seq(k, j => if j == i then 1.0 else 0.0)
  }

  /** tf.one_hot(indices, K): an N x K matrix. */
  function OneHot(idx: seq<nat>, k: nat): (m: Matrix)
    ensures IsMatrix(m, |idx|, k)
  {
    seq(|idx|, n requires 0 <= n < |idx| => OneHotRow(idx[n], k))
  }

  /** reduce_sum(encodings, axis=0) for encodings = one_hot(indices): the
      number of rows assigned to each codeword. */
  function Counts(idx: seq<nat>, k: nat): (c: Vector)
    ensures |c| == k
    ensures forall i :: 0 <= i < k ==> c[i] == multiset(idx)[i] as real
    ensures (forall n :: 0 <= n < |idx| ==> idx[n] < k) ==> Sum(c) == |idx| as real
  {
    var m := OneHot(idx, k);
    var c := seq(k, j requires 0 <= j < k => Sum(Column(m, j)));
    CountsAreMultiplicities(idx, k);
    if forall n :: 0 <= n < |idx| ==> idx[n] < k then
      CountsSumToBatchSize(idx, k);
      c
    else
      c
  }

  lemma {:induction false} ColumnSumIsMultiplicity(idx: seq<nat>, k: nat, i: nat)
    requires i < k
    ensures Sum(Column(OneHot(idx, k), i)) == multiset(idx)[i] as real
  {
    if |idx| > 0 {
      assert Column(OneHot(idx, k), i)[1..] == Column(OneHot(idx[1..], k), i);
      ColumnSumIsMultiplicity(idx[1..], k, i);
      assert idx == [idx[0]] + idx[1..];
      assert multiset(idx) == multiset{idx[0]} + multiset(idx[1..]);
    }
  }

  lemma CountsAreMultiplicities(idx: seq<nat>, k: nat)
    ensures forall i :: 0 <= i < k ==>
      Sum(Column(OneHot(idx, k), i)) == multiset(idx)[i] as real
  {
    forall i | 0 <= i < k
      ensures Sum(Column(OneHot(idx, k), i)) == multiset(idx)[i] as real
    {
      ColumnSumIsMultiplicity(idx, k, i);
    }
  }

  /** The column sums of a one-hot matrix add up to its number of rows. */
  lemma {:induction false} CountsSumToBatchSize(idx: seq<nat>, k: nat)
    requires forall n :: 0 <= n < |idx| ==> idx[n] < k
    ensures Sum(seq(k, j requires 0 <= j < k => Sum(Column(OneHot(idx, k), j)))) == |idx| as real
  {
    var c := seq(k, j requires 0 <= j < k => Sum(Column(OneHot(idx, k), j)));
    if |idx| == 0 {
      SumOfZeros(c);
    } else {
      var rest := seq(k, j requires 0 <= j < k => Sum(Column(OneHot(idx[1..], k), j)));
      var row := OneHotRow(idx[0], k);
      forall j | 0 <= j < k
        ensures c[j] == VecAdd(row, rest)[j]
      {
        assert Column(OneHot(idx, k), j)[1..] == Column(OneHot(idx[1..], k), j);
      }
      assert c == VecAdd(row, rest);
      CountsSumToBatchSize(idx[1..], k);
      SumOfAdd(row, rest);
      SumOfUnit(row, idx[0]);
    }
  }

  /** The layer's quantised value: one_hot(indices) times the transposed
      codebook, an N x D matrix. */
  function Quantize(idx: seq<nat>, e: Matrix, d: nat, k: nat): (q: Matrix)
    requires IsMatrix(e, d, k)
    ensures IsMatrix(q, |idx|, d)
  {
    MatMul(OneHot(idx, k), Transpose(e, d, k), |idx|, k, d)
  }

  /** Quantised row n is codeword idx[n]. */
  lemma QuantizeSelectsColumns(idx: seq<nat>, e: Matrix, d: nat, k: nat)
    requires IsMatrix(e, d, k)
    requires forall n :: 0 <= n < |idx| ==> idx[n] < k
    ensures Quantize(idx, e, d, k) == Select(e, idx, d, k)
  {
    var q := Quantize(idx, e, d, k);
    var t := Transpose(e, d, k);
    forall n | 0 <= n < |idx|
      ensures q[n] == Select(e, idx, d, k)[n]
    {
      forall dd | 0 <= dd < d
        ensures q[n][dd] == e[dd][idx[n]]
      {
        assert Column(t, dd) == e[dd];
        DotUnit(OneHotRow(idx[n], k), e[dd], idx[n]);
      }
    }
  }

  // ---------------------------------------------------------------------
  // Per-codeword sums of the assigned rows
  // ---------------------------------------------------------------------

  /** tf.matmul(flattened, encodings, transpose_a=True): a D x K matrix whose
      column i collects the rows assigned to codeword i. */
  function BatchSums(x: Matrix, idx: seq<nat>, d: nat, k: nat): (s: Matrix)
    requires IsBatch(x, d) && |idx| == |x|
    ensures IsMatrix(s, d, k)
  {
    MatMul(Transpose(x, |x|, d), OneHot(idx, k), d, |x|, k)
  }

  /** Reference definition: the vector sum of the rows n with idx[n] == i. */
  function AssignedSum(x: Matrix, idx: seq<nat>, i: nat, d: nat): (s: Vector)
    requires IsBatch(x, d) && |idx| == |x|
    ensures |s| == d
  {
    if |x| == 0 then Zeros(d)
    else if idx[0] == i then VecAdd(x[0], AssignedSum(x[1..], idx[1..], i, d))
    else AssignedSum(x[1..], idx[1..], i, d)
  }

  lemma {:induction false} DotWithIndicator(x: Matrix, idx: seq<nat>, d: nat, k: nat, dd: nat, i: nat)
    requires IsBatch(x, d) && |idx| == |x| && dd < d && i < k
    ensures Dot(Column(x, dd), Column(OneHot(idx, k), i)) == AssignedSum(x, idx, i, d)[dd]
  {
    if |x| > 0 {
      assert Column(x, dd)[1..] == Column(x[1..], dd);
      assert Column(OneHot(idx, k), i)[1..] == Column(OneHot(idx[1..], k), i);
      DotWithIndicator(x[1..], idx[1..], d, k, dd, i);
    }
  }

  /** Column i of the batch sums is the sum of the rows assigned to i. */
  lemma BatchSumsAreAssignedSums(x: Matrix, idx: seq<nat>, d: nat, k: nat)
    requires IsBatch(x, d) && |idx| == |x|
    ensures forall dd, i :: 0 <= dd < d && 0 <= i < k ==>
      BatchSums(x, idx, d, k)[dd][i] == AssignedSum(x, idx, i, d)[dd]
  {
    forall dd, i | 0 <= dd < d && 0 <= i < k
      ensures BatchSums(x, idx, d, k)[dd][i] == AssignedSum(x, idx, i, d)[dd]
    {
      DotWithIndicator(x, idx, d, k, dd, i);
    }
  }

  // ---------------------------------------------------------------------
  // Losses and the straight-through output
  // ---------------------------------------------------------------------

  /** A loss value; a mean over an empty tensor is NaN. */
  datatype Loss = Finite(value: real) | NaN

  /** beta * loss, with NaN absorbing. */
  function Scale(beta: real, l: Loss): Loss
  {
    match l
    case Finite(v) => Finite(beta * v)
    case NaN => NaN
  }

  /** The sum over all rows of the squared distance between a[n] and b[n]. */
  function TotalSqDist(a: Matrix, b: Matrix): (t: real)
    requires |a| == |b| && forall n :: 0 <= n < |a| ==> |a[n]| == |b[n]|
    ensures t >= 0.0
  {
    if |a| == 0 then 0.0 else SqDist(a[0], b[0]) + TotalSqDist(a[1..], b[1..])
  }

  /** tf.reduce_mean((a - b) ** 2) over an N x D tensor. */
  function MeanSquaredError(a: Matrix, b: Matrix, d: nat): (l: Loss)
    requires IsBatch(a, d) && IsBatch(b, d) && |a| == |b|
    ensures l.NaN? <==> |a| * d == 0
    ensures l.Finite? ==> l.value >= 0.0
  {
    if |a| * d == 0 then NaN
    else
      var n := (|a| * d) as real;
      NonNegativeQuotient(TotalSqDist(a, b), n);
      Finite(TotalSqDist(a, b) / n)
  }

  lemma NonNegativeQuotient(t: real, n: real)
    requires t >= 0.0 && n > 0.0
    ensures t / n >= 0.0
  {
  }

  lemma {:induction false} TotalSqDistMonotone(a: Matrix, b: Matrix, x: Matrix)
    requires |a| == |b| == |x|
    requires forall n :: 0 <= n < |a| ==> |a[n]| == |b[n]| == |x[n]|
    requires forall n :: 0 <= n < |a| ==> SqDist(a[n], x[n]) <= SqDist(b[n], x[n])
    ensures TotalSqDist(a, x) <= TotalSqDist(b, x)
  {
    if |a| > 0 {
      TotalSqDistMonotone(a[1..], b[1..], x[1..]);
    }
  }

  /** The quantised batch is at least as close to the input, in total
      squared error, as any other choice of codewords. */
  lemma QuantizationMinimisesError(x: Matrix, e: Matrix, d: nat, k: nat, other: seq<nat>)
    requires IsBatch(x, d) && IsMatrix(e, d, k) && k > 0
    requires |other| == |x| && forall n :: 0 <= n < |other| ==> other[n] < k
    ensures TotalSqDist(Quantize(CodeIndices(x, e, d, k), e, d, k), x)
         <= TotalSqDist(Select(e, other, d, k), x)
  {
    var idx := CodeIndices(x, e, d, k);
    var q := Quantize(idx, e, d, k);
    var s := Select(e, other, d, k);
    QuantizeSelectsColumns(idx, e, d, k);
    CodeIndicesAreNearest(x, e, d, k);
    forall n | 0 <= n < |x|
      ensures SqDist(q[n], x[n]) <= SqDist(s[n], x[n])
    {
      SqDistSymmetric(q[n], x[n]);
      SqDistSymmetric(s[n], x[n]);
    }
    TotalSqDistMonotone(q, s, x);
  }

  /** x + stop_gradient(q - x), computed element by element; in value it is
      exactly q. */
  function StraightThrough(x: Matrix, q: Matrix): (out: Matrix)
    requires |x| == |q| && forall n :: 0 <= n < |x| ==> |x[n]| == |q[n]|
    ensures out == q
  {
    var out := seq(|x|, n requires 0 <= n < |x| =>
      seq(|x[n]|, j requires 0 <= j < |x[n]| => x[n][j] + (q[n][j] - x[n][j])));
    assert forall n :: 0 <= n < |x| ==> out[n] == q[n];
    out
  }

  // ---------------------------------------------------------------------
  // Usage accounting
  // ---------------------------------------------------------------------

  /** tf.math.count_nonzero of a vector. */
  function CountNonzero(v: Vector): (r: nat)
    ensures r <= |v|
    ensures r == 0 <==> forall i :: 0 <= i < |v| ==> v[i] == 0.0
  {
    if |v| == 0 then 0
    else
      var rest := CountNonzero(v[1..]);
      assert forall i :: 1 <= i < |v| ==> v[i] == v[1..][i - 1];
      (if v[0] != 0.0 then 1 else 0) + rest
  }

  /** Growing a non-negative vector pointwise never lowers its number of
      nonzero entries. */
  lemma {:induction false} CountNonzeroMonotone(a: Vector, b: Vector)
    requires |a| == |b|
    requires forall i :: 0 <= i < |a| ==> 0.0 <= a[i] <= b[i]
    ensures CountNonzero(a) <= CountNonzero(b)
  {
    if |a| > 0 {
      CountNonzeroMonotone(a[1..], b[1..]);
    }
  }

  /** A history that never decreases. */
  predicate NonDecreasing(s: seq<nat>)
  {
    forall i, j :: 0 <= i <= j < |s| ==> s[i] <= s[j]
  }

  predicate NonNegative(v: Vector)
  {
    forall i :: 0 <= i < |v| ==> v[i] >= 0.0
  }

  /** Pointwise a <= b. */
  predicate PointwiseLe(a: Vector, b: Vector)
  {
    |a| == |b| && forall i :: 0 <= i < |a| ==> a[i] <= b[i]
  }

  /** Adding a non-negative count to an accumulator keeps it non-negative,
      never lowers any entry and never lowers its number of nonzero
      entries. */
  lemma AccumulateGrows(acc: Vector, count: Vector)
    requires |acc| == |count| && NonNegative(acc) && NonNegative(count)
    ensures NonNegative(VecAdd(acc, count))
    ensures PointwiseLe(acc, VecAdd(acc, count))
    ensures CountNonzero(acc) <= CountNonzero(VecAdd(acc, count))
  {
    CountNonzeroMonotone(acc, VecAdd(acc, count));
  }
}
