/** The exponential-moving-average vector quantiser of
    compress_recover/vq_vae_ema.py: the codebook is not trained by gradients
    but recomputed after every step as the decayed sum of assigned rows
    divided by the decayed count, and a callback records the number of
    active codewords per epoch. */
module VqVaeEma {
  import opened Linalg
  import opened Codebook

  /** The floor of the divisor; the float literal 1e-5 is taken as the exact
      rational 1/100000. */
  const Epsilon: real := 0.00001

  /** decay * previous + (1 - decay) * current. */
  function Decayed(decay: real, previous: real, current: real): real
  {
    Mul(decay, previous) + Mul(1.0 - decay, current)
  }

  /** tf.maximum(c, 1e-5). */
  function SafeDivisor(c: real): (r: real)
    ensures r >= Epsilon
    ensures r == c || r == Epsilon
    ensures c >= Epsilon ==> r == c
  {
    if c > Epsilon then c else Epsilon
  }

  /** A decay in [0, 1] keeps the average between the old value and the new
      one. */
  lemma DecayedBetween(decay: real, previous: real, current: real)
    requires 0.0 <= decay <= 1.0
    ensures previous <= current ==> previous <= Decayed(decay, previous, current) <= current
    ensures current <= previous ==> current <= Decayed(decay, previous, current) <= previous
  {
    var r := Decayed(decay, previous, current);
    assert r == previous + Mul(1.0 - decay, current - previous);
    assert r == current + Mul(decay, previous - current);
    if previous <= current {
      NonNegativeProduct(1.0 - decay, current - previous);
      NonNegativeProduct(decay, current - previous);
      assert Mul(decay, previous - current) == -Mul(decay, current - previous);
    } else {
      NonNegativeProduct(1.0 - decay, previous - current);
      NonNegativeProduct(decay, previous - current);
      assert Mul(1.0 - decay, current - previous) == -Mul(1.0 - decay, previous - current);
    }
  }

  function DecayedVector(decay: real, previous: Vector, current: Vector): (r: Vector)
    requires |previous| == |current|
    ensures |r| == |previous|
    ensures forall i :: 0 <= i < |r| ==> r[i] == Decayed(decay, previous[i], current[i])
  {
    seq(|previous|, i requires 0 <= i < |previous| => Decayed(decay, previous[i], current[i]))
  }

  function DecayedMatrix(decay: real, previous: Matrix, current: Matrix, d: nat, k: nat): (r: Matrix)
    requires IsMatrix(previous, d, k) && IsMatrix(current, d, k)
    ensures IsMatrix(r, d, k)
    ensures forall row, i :: 0 <= row < d && 0 <= i < k ==>
      r[row][i] == Decayed(decay, previous[row][i], current[row][i])
  {
    seq(d, row requires 0 <= row < d =>
      seq(k, i requires 0 <= i < k => Decayed(decay, previous[row][i], current[row][i])))
  }

  /** updated_embeddings_sum / tf.maximum(ema_count, 1e-5): column i of the
      sum divided by the floored count of codeword i. */
  function Normalized(sum: Matrix, counts: Vector, d: nat, k: nat): (e: Matrix)
    requires IsMatrix(sum, d, k) && |counts| == k
    ensures IsMatrix(e, d, k)
    ensures forall row, i :: 0 <= row < d && 0 <= i < k ==>
      Mul(e[row][i], SafeDivisor(counts[i])) == sum[row][i]
  {
    var e := seq(d, row requires 0 <= row < d =>
      seq(k, i requires 0 <= i < k => Div(sum[row][i], SafeDivisor(counts[i]))));
    forall row, i | 0 <= row < d && 0 <= i < k
      ensures Mul(e[row][i], SafeDivisor(counts[i])) == sum[row][i]
    {
      DivTimesDivisor(sum[row][i], SafeDivisor(counts[i]));
    }
    e
  }

  /** The layer's variables as values. */
  datatype EmaState = EmaState(embeddings: Matrix, emaCount: Vector, count: Vector,
                               embeddingsSum: Matrix, accumulativeCount: Vector)

  predicate WellShaped(s: EmaState, d: nat, k: nat)
  {
    IsMatrix(s.embeddings, d, k) && IsMatrix(s.embeddingsSum, d, k) &&
    |s.emaCount| == k && |s.count| == k && |s.accumulativeCount| == k
  }

  /** update_ema_embeddings on values: the rows are assigned with the
      codebook as it was on entry, then EmaStep applies that assignment. */
  function EmaUpdate(s: EmaState, x: Matrix, decay: real, d: nat, k: nat): (t: EmaState)
    requires WellShaped(s, d, k) && k > 0 && IsBatch(x, d)
    ensures WellShaped(t, d, k)
  {
    EmaStep(s, x, CodeIndices(x, s.embeddings, d, k), decay, d, k)
  }

  /** The update for a given assignment `idx` of the rows: the count average
      is updated first and the new codebook divides by the UPDATED average. */
  function EmaStep(s: EmaState, x: Matrix, idx: seq<nat>, decay: real, d: nat, k: nat): (t: EmaState)
    requires WellShaped(s, d, k) && IsBatch(x, d) && Assignment(idx, |x|, k)
    ensures WellShaped(t, d, k)
  {
    var count := Counts(idx, k);
    var emaCount := DecayedVector(decay, s.emaCount, count);
    var batchSum := BatchSums(x, idx, d, k);
    var updatedSum := DecayedMatrix(decay, s.embeddingsSum, batchSum, d, k);
    EmaState(Normalized(updatedSum, emaCount, d, k), emaCount, count, updatedSum,
             VecAdd(s.accumulativeCount, count))
  }

  /** One index below k per row. */
  predicate Assignment(idx: seq<nat>, n: nat, k: nat)
  {
    |idx| == n && forall i :: 0 <= i < |idx| ==> idx[i] < k
  }

  /** The stored count is the number of rows assigned to each codeword, and
      these add up to the batch size. */
  lemma EmaStepCounts(s: EmaState, x: Matrix, idx: seq<nat>, decay: real, d: nat, k: nat)
    requires WellShaped(s, d, k) && IsBatch(x, d) && Assignment(idx, |x|, k)
    ensures var t := EmaStep(s, x, idx, decay, d, k);
      (forall i :: 0 <= i < k ==> t.count[i] == multiset(idx)[i] as real) &&
      Sum(t.count) == |x| as real
  {
  }

  /** The decayed count is decay * old + (1 - decay) * batch count; with a
      decay in [0, 1] it lies between the two and so stays non-negative. */
  lemma EmaCountBounded(s: EmaState, x: Matrix, idx: seq<nat>, decay: real, d: nat, k: nat)
    requires WellShaped(s, d, k) && IsBatch(x, d) && Assignment(idx, |x|, k)
    requires 0.0 <= decay <= 1.0 && NonNegative(s.emaCount)
    ensures var t := EmaStep(s, x, idx, decay, d, k);
      (forall i :: 0 <= i < k ==> t.emaCount[i] == Decayed(decay, s.emaCount[i], t.count[i])) &&
      (forall i :: 0 <= i < k ==>
         (s.emaCount[i] <= t.count[i] ==> s.emaCount[i] <= t.emaCount[i] <= t.count[i]) &&
         (t.count[i] <= s.emaCount[i] ==> t.count[i] <= t.emaCount[i] <= s.emaCount[i])) &&
      NonNegative(t.emaCount)
  {
    var t := EmaStep(s, x, idx, decay, d, k);
    forall i | 0 <= i < k
      ensures (s.emaCount[i] <= t.count[i] ==> s.emaCount[i] <= t.emaCount[i] <= t.count[i]) &&
              (t.count[i] <= s.emaCount[i] ==> t.count[i] <= t.emaCount[i] <= s.emaCount[i])
    {
      DecayedBetween(decay, s.emaCount[i], t.count[i]);
    }
  }

  /** Column i of the running sum is the decayed sum of the rows assigned
      to codeword i. */
  lemma EmaSumIsDecayedAssignedSum(s: EmaState, x: Matrix, idx: seq<nat>, decay: real, d: nat, k: nat)
    requires WellShaped(s, d, k) && IsBatch(x, d) && Assignment(idx, |x|, k)
    ensures var t := EmaStep(s, x, idx, decay, d, k);
      forall row, i :: 0 <= row < d && 0 <= i < k ==>
        t.embeddingsSum[row][i] ==
          Decayed(decay, s.embeddingsSum[row][i], AssignedSum(x, idx, i, d)[row])
  {
    BatchSumsAreAssignedSums(x, idx, d, k);
  }

  /** The new codebook is the new running sum divided, column by column, by
      the new decayed count floored at epsilon (a divisor that SafeDivisor
      keeps at or above epsilon, so never zero). */
  lemma EmaCodebookNormalized(s: EmaState, x: Matrix, idx: seq<nat>, decay: real, d: nat, k: nat)
    requires WellShaped(s, d, k) && IsBatch(x, d) && Assignment(idx, |x|, k)
    ensures var t := EmaStep(s, x, idx, decay, d, k);
      forall row, i :: 0 <= row < d && 0 <= i < k ==>
        Mul(t.embeddings[row][i], SafeDivisor(t.emaCount[i])) == t.embeddingsSum[row][i]
  {
  }

  /** The all-time counter grows by the batch count: it never decreases
      anywhere, and neither does its number of nonzero entries, which stays
      at most K. */
  lemma EmaAccumulates(s: EmaState, x: Matrix, idx: seq<nat>, decay: real, d: nat, k: nat)
    requires WellShaped(s, d, k) && IsBatch(x, d) && Assignment(idx, |x|, k)
    requires NonNegative(s.accumulativeCount)
    ensures var t := EmaStep(s, x, idx, decay, d, k);
      t.accumulativeCount == VecAdd(s.accumulativeCount, t.count) &&
      NonNegative(t.accumulativeCount) &&
      PointwiseLe(s.accumulativeCount, t.accumulativeCount) &&
      CountNonzero(s.accumulativeCount) <= CountNonzero(t.accumulativeCount) <= k
  {
    var t := EmaStep(s, x, idx, decay, d, k);
    AccumulateGrows(s.accumulativeCount, t.count);
  }

  /** With decay 0 the update is one step of Lloyd's algorithm: every used
      codeword moves to the mean of the rows assigned to it. */
  lemma NoDecayMovesToCentroid(s: EmaState, x: Matrix, idx: seq<nat>, d: nat, k: nat, i: nat, row: nat)
    requires WellShaped(s, d, k) && IsBatch(x, d) && Assignment(idx, |x|, k)
    requires i < k && row < d && multiset(idx)[i] > 0
    ensures Mul(EmaStep(s, x, idx, 0.0, d, k).embeddings[row][i], multiset(idx)[i] as real)
         == AssignedSum(x, idx, i, d)[row]
  {
    var t := EmaStep(s, x, idx, 0.0, d, k);
    var count := Counts(idx, k);
    assert t.emaCount == DecayedVector(0.0, s.emaCount, count);
    assert t.emaCount[i] == count[i] == multiset(idx)[i] as real;
    EmaSumIsDecayedAssignedSum(s, x, idx, 0.0, d, k);
    EmaCodebookNormalized(s, x, idx, 0.0, d, k);
    assert SafeDivisor(t.emaCount[i]) == t.emaCount[i];
  }

  /** A codeword that no row chose keeps its position, provided the old
      codeword was already its running sum over its count and the decayed
      count stays above the floor. */
  lemma UnusedCodewordStays(s: EmaState, x: Matrix, idx: seq<nat>, decay: real, d: nat, k: nat,
                            i: nat, row: nat)
    requires WellShaped(s, d, k) && IsBatch(x, d) && Assignment(idx, |x|, k)
    requires i < k && row < d && decay > 0.0 && multiset(idx)[i] == 0
    requires s.emaCount[i] > 0.0 && Mul(decay, s.emaCount[i]) >= Epsilon
    requires s.embeddings[row][i] == Div(s.embeddingsSum[row][i], s.emaCount[i])
    ensures EmaStep(s, x, idx, decay, d, k).embeddings[row][i] == s.embeddings[row][i]
  {
    var t := EmaStep(s, x, idx, decay, d, k);
    var count := Counts(idx, k);
    assert t.emaCount == DecayedVector(decay, s.emaCount, count);
    assert count[i] == 0.0;
    EmaSumIsDecayedAssignedSum(s, x, idx, decay, d, k);
    EmaCodebookNormalized(s, x, idx, decay, d, k);
    AssignedSumOfUnused(x, idx, i, d, row);
    assert t.emaCount[i] == Mul(decay, s.emaCount[i]);
    assert t.embeddingsSum[row][i] == Mul(decay, s.embeddingsSum[row][i]);
    CancelCommonFactor(s.embeddingsSum[row][i], s.emaCount[i], decay);
  }

  lemma {:induction false} AssignedSumOfUnused(x: Matrix, idx: seq<nat>, i: nat, d: nat, row: nat)
    requires IsBatch(x, d) && |idx| == |x| && row < d
    requires multiset(idx)[i] == 0
    ensures AssignedSum(x, idx, i, d)[row] == 0.0
  {
    if |x| > 0 {
      assert idx == [idx[0]] + idx[1..];
      assert multiset(idx) == multiset{idx[0]} + multiset(idx[1..]);
      AssignedSumOfUnused(x[1..], idx[1..], i, d, row);
    }
  }

  /** What one call of the layer produces, at the value level. */
  datatype EmaForwardResult = EmaForwardResult(output: Matrix, commitmentLoss: Loss)

  class VectorQuantizerEma {
    const embeddingDim: nat
    const numEmbeddings: nat
    const beta: real
    const emaDecay: real
    var isTrainingEma: bool
    var embeddings: Matrix
    var emaCount: Vector
    var count: Vector
    var embeddingsSum: Matrix
    var embeddingSampleAccumulativeCount: Vector

    function State(): EmaState
      reads this
    {
      EmaState(embeddings, emaCount, count, embeddingsSum, embeddingSampleAccumulativeCount)
    }

    ghost predicate Valid()
      reads this
    {
      numEmbeddings > 0 &&
      WellShaped(State(), embeddingDim, numEmbeddings) &&
      NonNegative(embeddingSampleAccumulativeCount) &&
      (0.0 <= emaDecay <= 1.0 ==> NonNegative(emaCount))
    }

    /** `initial` stands for the random draw of the initializer. */
    constructor (numEmbeddings: nat, embeddingDim: nat, beta: real, emaDecay: real, initial: Matrix)
      requires numEmbeddings > 0 && IsMatrix(initial, embeddingDim, numEmbeddings)
      ensures Valid() && isTrainingEma
      ensures this.numEmbeddings == numEmbeddings && this.embeddingDim == embeddingDim
      ensures this.beta == beta && this.emaDecay == emaDecay
      ensures State() == EmaState(initial, Zeros(numEmbeddings), Zeros(numEmbeddings),
                                  seq(embeddingDim, row => Zeros(numEmbeddings)), Zeros(numEmbeddings))
    {
      this.numEmbeddings := numEmbeddings;
      this.embeddingDim := embeddingDim;
      this.beta := beta;
      this.emaDecay := emaDecay;
      isTrainingEma := true;
      embeddings := initial;
      emaCount := Zeros(numEmbeddings);
      count := Zeros(numEmbeddings);
      embeddingsSum := seq(embeddingDim, row => Zeros(numEmbeddings));
      embeddingSampleAccumulativeCount := Zeros(numEmbeddings);
    }

    method EnableTrainingEma()
      modifies this`isTrainingEma
      ensures isTrainingEma
    {
      isTrainingEma := true;
    }

    method DisableTrainingEma()
      modifies this`isTrainingEma
      ensures !isTrainingEma
    {
      isTrainingEma := false;
    }

    /** get_code_indices on the current codebook. Its frame is the codebook
        alone. */
    function GetCodeIndices(x: Matrix): (idx: seq<nat>)
      reads this`embeddings
      requires numEmbeddings > 0 && IsMatrix(embeddings, embeddingDim, numEmbeddings)
      requires IsBatch(x, embeddingDim)
      ensures |idx| == |x|
      ensures forall n :: 0 <= n < |x| ==> idx[n] < numEmbeddings
      ensures forall n, j :: 0 <= n < |x| && 0 <= j < numEmbeddings ==>
        SqDist(x[n], Column(embeddings, idx[n])) <= SqDist(x[n], Column(embeddings, j))
    {
      CodeIndicesAreNearest(x, embeddings, embeddingDim, numEmbeddings);
      CodeIndices(x, embeddings, embeddingDim, numEmbeddings)
    }

    /** call(x) at the value level. It reads only the codebook (not the
        training flag), changes nothing, and its one registered loss is the
        unscaled mean squared error. */
    function Call(x: Matrix): (r: EmaForwardResult)
      reads this`embeddings
      requires numEmbeddings > 0 && IsMatrix(embeddings, embeddingDim, numEmbeddings)
      requires IsBatch(x, embeddingDim)
      ensures IsMatrix(r.output, |x|, embeddingDim)
      ensures forall n :: 0 <= n < |x| ==> r.output[n] == Column(embeddings, GetCodeIndices(x)[n])
      ensures forall n, j :: 0 <= n < |x| && 0 <= j < numEmbeddings ==>
        SqDist(x[n], r.output[n]) <= SqDist(x[n], Column(embeddings, j))
      ensures r.commitmentLoss.NaN? <==> |x| * embeddingDim == 0
      ensures r.commitmentLoss.Finite? ==> r.commitmentLoss.value >= 0.0
      ensures r.commitmentLoss == MeanSquaredError(r.output, x, embeddingDim)
    {
      var idx := GetCodeIndices(x);
      var quantized := Quantize(idx, embeddings, embeddingDim, numEmbeddings);
      QuantizeSelectsColumns(idx, embeddings, embeddingDim, numEmbeddings);
      var commitmentLoss := MeanSquaredError(quantized, x, embeddingDim);
      EmaForwardResult(StraightThrough(x, quantized), commitmentLoss)
    }

    /** update_ema_embeddings: the fields are assigned in the order of the
        source, and together they make the value-level update. The training
        flag is outside the frame. */
    method UpdateEmaEmbeddings(x: Matrix)
      requires Valid() && IsBatch(x, embeddingDim)
      modifies this`embeddings, this`emaCount, this`count, this`embeddingsSum,
               this`embeddingSampleAccumulativeCount
      ensures Valid()
      ensures State() == EmaUpdate(old(State()), x, emaDecay, embeddingDim, numEmbeddings)
      ensures CountNonzero(old(embeddingSampleAccumulativeCount)) <= CountNonzero(embeddingSampleAccumulativeCount)
    {
      ghost var before := State();
      var idx := GetCodeIndices(x);
      var batchCount := Counts(idx, numEmbeddings);
      emaCount := DecayedVector(emaDecay, emaCount, batchCount);
      var batchSum := BatchSums(x, idx, embeddingDim, numEmbeddings);
      var updatedSum := DecayedMatrix(emaDecay, embeddingsSum, batchSum, embeddingDim, numEmbeddings);
      embeddings := Normalized(updatedSum, emaCount, embeddingDim, numEmbeddings);
      embeddingsSum := updatedSum;
      count := batchCount;
      embeddingSampleAccumulativeCount := VecAdd(embeddingSampleAccumulativeCount, batchCount);
      assert idx == CodeIndices(x, before.embeddings, embeddingDim, numEmbeddings);
      assert State() == EmaStep(before, x, idx, emaDecay, embeddingDim, numEmbeddings);
      EmaAccumulates(before, x, idx, emaDecay, embeddingDim, numEmbeddings);
      if 0.0 <= emaDecay <= 1.0 {
        EmaCountBounded(before, x, idx, emaDecay, embeddingDim, numEmbeddings);
      }
    }
  }

  /** LearningRateCallback, for its active-codeword history. */
  class LearningRateCallback {
    const quantizer: VectorQuantizerEma
    var numActiveEmbeddingsList: seq<nat>

    /** The recorded history never decreases and never exceeds the current
        number of active codewords. */
    ghost predicate Consistent()
      reads this, quantizer
    {
      NonDecreasing(numActiveEmbeddingsList) &&
      forall i :: 0 <= i < |numActiveEmbeddingsList| ==>
        numActiveEmbeddingsList[i] <= CountNonzero(quantizer.embeddingSampleAccumulativeCount)
    }

    constructor (quantizer: VectorQuantizerEma)
      ensures this.quantizer == quantizer && numActiveEmbeddingsList == []
      ensures Consistent()
    {
      this.quantizer := quantizer;
      numActiveEmbeddingsList := [];
    }

    method OnEpochEnd()
      requires quantizer.Valid()
      modifies this`numActiveEmbeddingsList
      ensures numActiveEmbeddingsList == old(numActiveEmbeddingsList)
        + [CountNonzero(quantizer.embeddingSampleAccumulativeCount)]
      ensures numActiveEmbeddingsList[|numActiveEmbeddingsList| - 1] <= quantizer.numEmbeddings
      ensures old(Consistent()) ==> Consistent()
    {
      numActiveEmbeddingsList := numActiveEmbeddingsList
        + [CountNonzero(quantizer.embeddingSampleAccumulativeCount)];
    }
  }

  /** Every entry is a batch of rows of width d. */
  predicate AllBatches(batches: seq<Matrix>, d: nat)
  {
    forall b :: 0 <= b < |batches| ==> IsBatch(batches[b], d)
  }

  /** The layer state after updating on `batches` in order. */
  function EmaUpdates(s: EmaState, batches: seq<Matrix>, decay: real, d: nat, k: nat): (t: EmaState)
    requires WellShaped(s, d, k) && k > 0 && AllBatches(batches, d)
    ensures WellShaped(t, d, k)
    decreases |batches|
  {
    if |batches| == 0 then s
    else EmaUpdate(EmaUpdates(s, batches[..|batches| - 1], decay, d, k), batches[|batches| - 1], decay, d, k)
  }

  /** The layer state after the epochs in order, each updating on its
      batches. */
  function EmaEpochs(s: EmaState, epochs: seq<seq<Matrix>>, decay: real, d: nat, k: nat): (t: EmaState)
    requires WellShaped(s, d, k) && k > 0
    requires forall e :: 0 <= e < |epochs| ==> AllBatches(epochs[e], d)
    ensures WellShaped(t, d, k)
    decreases |epochs|
  {
    if |epochs| == 0 then s
    else EmaUpdates(EmaEpochs(s, epochs[..|epochs| - 1], decay, d, k), epochs[|epochs| - 1], decay, d, k)
  }

  /** The last epoch is applied to the state the earlier ones leave. */
  lemma EmaEpochsLast(s: EmaState, epochs: seq<seq<Matrix>>, decay: real, d: nat, k: nat)
    requires WellShaped(s, d, k) && k > 0 && |epochs| > 0
    requires forall e :: 0 <= e < |epochs| ==> AllBatches(epochs[e], d)
    ensures EmaEpochs(s, epochs, decay, d, k)
         == EmaUpdates(EmaEpochs(s, epochs[..|epochs| - 1], decay, d, k), epochs[|epochs| - 1], decay, d, k)
  {
  }

  /** The batches of all epochs, in order. */
  function Flatten(epochs: seq<seq<Matrix>>): (f: seq<Matrix>)
    decreases |epochs|
  {
    if |epochs| == 0 then [] else Flatten(epochs[..|epochs| - 1]) + epochs[|epochs| - 1]
  }

  lemma AppendBatches(first: seq<Matrix>, second: seq<Matrix>, d: nat)
    requires AllBatches(first, d) && AllBatches(second, d)
    ensures AllBatches(first + second, d)
  {
    forall b | 0 <= b < |first + second|
      ensures IsBatch((first + second)[b], d)
    {
      if b < |first| {
        assert (first + second)[b] == first[b];
      } else {
        assert (first + second)[b] == second[b - |first|];
      }
    }
  }

  lemma {:induction false} FlattenBatches(epochs: seq<seq<Matrix>>, d: nat)
    requires forall e :: 0 <= e < |epochs| ==> AllBatches(epochs[e], d)
    ensures AllBatches(Flatten(epochs), d)
    decreases |epochs|
  {
    if |epochs| > 0 {
      FlattenBatches(epochs[..|epochs| - 1], d);
      AppendBatches(Flatten(epochs[..|epochs| - 1]), epochs[|epochs| - 1], d);
    }
  }

  /** The last batch is applied to the state the earlier ones leave. */
  lemma EmaUpdatesLast(s: EmaState, batches: seq<Matrix>, decay: real, d: nat, k: nat)
    requires WellShaped(s, d, k) && k > 0 && AllBatches(batches, d) && |batches| > 0
    ensures EmaUpdates(s, batches, decay, d, k)
         == EmaUpdate(EmaUpdates(s, batches[..|batches| - 1], decay, d, k), batches[|batches| - 1], decay, d, k)
  {
  }

  /** Updating on two runs of batches is updating on the first, then on the
      second. */
  lemma {:induction false} EmaUpdatesAppend(s: EmaState, first: seq<Matrix>, second: seq<Matrix>,
                                            decay: real, d: nat, k: nat)
    requires WellShaped(s, d, k) && k > 0 && AllBatches(first, d) && AllBatches(second, d)
    ensures AllBatches(first + second, d)
    ensures EmaUpdates(s, first + second, decay, d, k)
         == EmaUpdates(EmaUpdates(s, first, decay, d, k), second, decay, d, k)
    decreases |second|
  {
    AppendBatches(first, second, d);
    if |second| == 0 {
      assert first + second == first;
    } else {
      var front, last := second[..|second| - 1], second[|second| - 1];
      var both := first + second;
      var middle := EmaUpdates(s, first, decay, d, k);
      EmaUpdatesAppend(s, first, front, decay, d, k);
      assert both[..|both| - 1] == first + front;
      assert both[|both| - 1] == last;
      EmaUpdatesLast(s, both, decay, d, k);
      EmaUpdatesLast(middle, second, decay, d, k);
    }
  }

  /** The epoch boundaries do not matter to the layer: the epochs update it
      exactly as their batches, run back to back, would. */
  lemma {:induction false} EmaEpochsFlatten(s: EmaState, epochs: seq<seq<Matrix>>, decay: real, d: nat, k: nat)
    requires WellShaped(s, d, k) && k > 0
    requires forall e :: 0 <= e < |epochs| ==> AllBatches(epochs[e], d)
    ensures AllBatches(Flatten(epochs), d)
    ensures EmaEpochs(s, epochs, decay, d, k) == EmaUpdates(s, Flatten(epochs), decay, d, k)
    decreases |epochs|
  {
    FlattenBatches(epochs, d);
    if |epochs| > 0 {
      var front := epochs[..|epochs| - 1];
      EmaEpochsFlatten(s, front, decay, d, k);
      EmaUpdatesAppend(s, Flatten(front), epochs[|epochs| - 1], decay, d, k);
    }
  }

  /** Updating on batches keeps the all-time counter non-negative and never
      lowers an entry or the number of codewords ever used. */
  lemma {:induction false} EmaUpdatesAccumulate(s: EmaState, batches: seq<Matrix>, decay: real, d: nat, k: nat)
    requires WellShaped(s, d, k) && k > 0 && AllBatches(batches, d)
    requires NonNegative(s.accumulativeCount)
    ensures var t := EmaUpdates(s, batches, decay, d, k);
      NonNegative(t.accumulativeCount) && PointwiseLe(s.accumulativeCount, t.accumulativeCount) &&
      CountNonzero(s.accumulativeCount) <= CountNonzero(t.accumulativeCount) <= k
    decreases |batches|
  {
    if |batches| > 0 {
      var front := EmaUpdates(s, batches[..|batches| - 1], decay, d, k);
      var last := batches[|batches| - 1];
      EmaUpdatesAccumulate(s, batches[..|batches| - 1], decay, d, k);
      EmaAccumulates(front, last, CodeIndices(last, front.embeddings, d, k), decay, d, k);
    }
  }

  /** One training step of an epoch: batch s updates the layer, which then
      stands where the first s + 1 batches of the epoch leave it. */
  method UpdateOnBatch(quantizer: VectorQuantizerEma, callback: LearningRateCallback, batches: seq<Matrix>,
                       s: nat, ghost start: EmaState)
    requires callback.quantizer == quantizer && quantizer.Valid() && callback.Consistent()
    requires s < |batches| && AllBatches(batches, quantizer.embeddingDim)
    requires WellShaped(start, quantizer.embeddingDim, quantizer.numEmbeddings)
    requires quantizer.State() == EmaUpdates(start, batches[..s], quantizer.emaDecay,
                                             quantizer.embeddingDim, quantizer.numEmbeddings)
    modifies quantizer
    ensures quantizer.Valid() && callback.Consistent()
    ensures quantizer.isTrainingEma == old(quantizer.isTrainingEma)
    ensures quantizer.State() == EmaUpdates(start, batches[..s + 1], quantizer.emaDecay,
                                            quantizer.embeddingDim, quantizer.numEmbeddings)
  {
    quantizer.UpdateEmaEmbeddings(batches[s]);
    assert batches[..s + 1][..s] == batches[..s];
    EmaUpdatesLast(start, batches[..s + 1], quantizer.emaDecay, quantizer.embeddingDim, quantizer.numEmbeddings);
  }

  /** One epoch of fit on the layer: every batch updates it, then the
      callback records the number of codewords ever used. */
  method EmaEpoch(quantizer: VectorQuantizerEma, callback: LearningRateCallback, batches: seq<Matrix>)
    requires callback.quantizer == quantizer && quantizer.Valid() && callback.Consistent()
    requires AllBatches(batches, quantizer.embeddingDim)
    modifies quantizer, callback
    ensures quantizer.Valid() && callback.Consistent()
    ensures quantizer.isTrainingEma == old(quantizer.isTrainingEma)
    ensures quantizer.State() == EmaUpdates(old(quantizer.State()), batches, quantizer.emaDecay,
                                            quantizer.embeddingDim, quantizer.numEmbeddings)
    ensures callback.numActiveEmbeddingsList == old(callback.numActiveEmbeddingsList)
      + [CountNonzero(quantizer.embeddingSampleAccumulativeCount)]
  {
    ghost var s0 := quantizer.State();
    var d, k := quantizer.embeddingDim, quantizer.numEmbeddings;
    var s := 0;
    while s < |batches|
      invariant 0 <= s <= |batches|
      invariant quantizer.Valid() && callback.Consistent()
      invariant quantizer.isTrainingEma == old(quantizer.isTrainingEma)
      invariant callback.numActiveEmbeddingsList == old(callback.numActiveEmbeddingsList)
      invariant quantizer.State() == EmaUpdates(s0, batches[..s], quantizer.emaDecay, d, k)
    {
      UpdateOnBatch(quantizer, callback, batches, s, s0);
      s := s + 1;
    }
    assert batches[..|batches|] == batches;
    callback.OnEpochEnd();
  }

  /** fit of the EMA trainer as it acts on the layer: every step updates the
      codebook from the encoder's latent batch (the gradient steps never
      reach the codebook, whose output path is cut by the straight-through
      estimator), and every epoch ends with the callback. */
  method TrainEma(quantizer: VectorQuantizerEma, callback: LearningRateCallback, epochs: seq<seq<Matrix>>)
    requires callback.quantizer == quantizer && quantizer.Valid() && callback.Consistent()
    requires forall e :: 0 <= e < |epochs| ==> AllBatches(epochs[e], quantizer.embeddingDim)
    modifies quantizer, callback
    ensures quantizer.Valid() && callback.Consistent()
    ensures quantizer.isTrainingEma == old(quantizer.isTrainingEma)
    ensures quantizer.State() == EmaEpochs(old(quantizer.State()), epochs, quantizer.emaDecay,
                                           quantizer.embeddingDim, quantizer.numEmbeddings)
    ensures |callback.numActiveEmbeddingsList| == |old(callback.numActiveEmbeddingsList)| + |epochs|
    ensures old(callback.numActiveEmbeddingsList) <= callback.numActiveEmbeddingsList
  {
    ghost var s0 := quantizer.State();
    var d, k := quantizer.embeddingDim, quantizer.numEmbeddings;
    var e := 0;
    while e < |epochs|
      invariant 0 <= e <= |epochs|
      invariant quantizer.Valid() && callback.Consistent()
      invariant quantizer.isTrainingEma == old(quantizer.isTrainingEma)
      invariant quantizer.State() == EmaEpochs(s0, epochs[..e], quantizer.emaDecay, d, k)
      invariant |callback.numActiveEmbeddingsList| == |old(callback.numActiveEmbeddingsList)| + e
      invariant old(callback.numActiveEmbeddingsList) <= callback.numActiveEmbeddingsList
    {
      EmaEpoch(quantizer, callback, epochs[e]);
      assert epochs[..e + 1][..e] == epochs[..e];
      EmaEpochsLast(s0, epochs[..e + 1], quantizer.emaDecay, d, k);
      e := e + 1;
    }
    assert epochs[..|epochs|] == epochs;
  }
}
