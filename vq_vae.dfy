/** The gradient-trained vector quantiser of compress_recover/vq_vae.py: the
    layer with its codebook and usage counters, the callback that records
    the number of active codewords after every epoch, and the epoch loop of
    train_vq_vae that periodically overwrites the codebook with an externally
    computed initialisation. */
module VqVae {
  import opened Linalg
  import opened Codebook

  /** What one call of the layer produces, at the value level. */
  datatype ForwardResult = ForwardResult(output: Matrix, codebookLoss: Loss, commitmentLoss: Loss)

  class VectorQuantizer {
    const embeddingDim: nat
    const numEmbeddings: nat
    const beta: real
    /** D x K; column j is codeword j. */
    var embeddings: Matrix
    /** Rows assigned to each codeword in the most recent tracked batch. */
    var embeddingSampleCount: Vector
    /** Rows assigned to each codeword over all tracked batches. */
    var embeddingSampleAccumulativeCount: Vector

    ghost predicate Valid()
      reads this
    {
      numEmbeddings > 0 &&
      IsMatrix(embeddings, embeddingDim, numEmbeddings) &&
      |embeddingSampleCount| == numEmbeddings &&
      |embeddingSampleAccumulativeCount| == numEmbeddings &&
      NonNegative(embeddingSampleCount) &&
      NonNegative(embeddingSampleAccumulativeCount)
    }

    /** `initial` stands for the uniform random draw of the initializer. */
    constructor (numEmbeddings: nat, embeddingDim: nat, beta: real, initial: Matrix)
      requires numEmbeddings > 0 && IsMatrix(initial, embeddingDim, numEmbeddings)
      ensures Valid()
      ensures this.numEmbeddings == numEmbeddings && this.embeddingDim == embeddingDim
      ensures this.beta == beta && embeddings == initial
      ensures embeddingSampleCount == Zeros(numEmbeddings)
      ensures embeddingSampleAccumulativeCount == Zeros(numEmbeddings)
    {
      this.numEmbeddings := numEmbeddings;
      this.embeddingDim := embeddingDim;
      this.beta := beta;
      embeddings := initial;
      embeddingSampleCount := Zeros(numEmbeddings);
      embeddingSampleAccumulativeCount := Zeros(numEmbeddings);
    }

    /** get_code_indices on the current codebook. */
    function GetCodeIndices(x: Matrix): (idx: seq<nat>)
      reads this
      requires Valid() && IsBatch(x, embeddingDim)
      ensures |idx| == |x|
      ensures forall n :: 0 <= n < |x| ==> idx[n] < numEmbeddings
      ensures forall n, j :: 0 <= n < |x| && 0 <= j < numEmbeddings ==>
        SqDist(x[n], Column(embeddings, idx[n])) <= SqDist(x[n], Column(embeddings, j))
    {
      CodeIndicesAreNearest(x, embeddings, embeddingDim, numEmbeddings);
      CodeIndices(x, embeddings, embeddingDim, numEmbeddings)
    }

    /** calculate_data_points_number_per_centorid: how many rows of the batch
        each codeword attracts. */
    function DataPointsPerCentroid(x: Matrix): (c: Vector)
      reads this
      requires Valid() && IsBatch(x, embeddingDim)
      ensures |c| == numEmbeddings
      ensures forall i :: 0 <= i < numEmbeddings ==> c[i] == multiset(GetCodeIndices(x))[i] as real
      ensures Sum(c) == |x| as real
    {
      Counts(GetCodeIndices(x), numEmbeddings)
    }

    /** call(x) at the value level: the straight-through output and the two
        loss values the layer registers. */
    function Call(x: Matrix): (r: ForwardResult)
      reads this
      requires Valid() && IsBatch(x, embeddingDim)
      ensures IsMatrix(r.output, |x|, embeddingDim)
      ensures forall n :: 0 <= n < |x| ==> r.output[n] == Column(embeddings, GetCodeIndices(x)[n])
      ensures forall n, j :: 0 <= n < |x| && 0 <= j < numEmbeddings ==>
        SqDist(x[n], r.output[n]) <= SqDist(x[n], Column(embeddings, j))
      ensures r.codebookLoss == MeanSquaredError(r.output, x, embeddingDim)
      ensures r.codebookLoss.NaN? <==> |x| * embeddingDim == 0
      ensures r.codebookLoss.Finite? ==> r.codebookLoss.value >= 0.0
      ensures r.commitmentLoss == Scale(beta, r.codebookLoss)
    {
      var idx := GetCodeIndices(x);
      var quantized := Quantize(idx, embeddings, embeddingDim, numEmbeddings);
      QuantizeSelectsColumns(idx, embeddings, embeddingDim, numEmbeddings);
      var commitmentLoss := Scale(beta, MeanSquaredError(quantized, x, embeddingDim));
      var codebookLoss := MeanSquaredError(quantized, x, embeddingDim);
      ForwardResult(StraightThrough(x, quantized), codebookLoss, commitmentLoss)
    }

    /** track_embedding_space: store the batch's per-codeword counts and add
        them to the all-time counter; the codebook is untouched. */
    method TrackEmbeddingSpace(x: Matrix)
      requires Valid() && IsBatch(x, embeddingDim)
      modifies this
      ensures Valid()
      ensures embeddings == old(embeddings)
      ensures embeddingSampleCount == old(DataPointsPerCentroid(x))
      ensures embeddingSampleAccumulativeCount
           == VecAdd(old(embeddingSampleAccumulativeCount), embeddingSampleCount)
      ensures PointwiseLe(old(embeddingSampleAccumulativeCount), embeddingSampleAccumulativeCount)
      ensures CountNonzero(old(embeddingSampleAccumulativeCount))
           <= CountNonzero(embeddingSampleAccumulativeCount)
    {
      var idx := GetCodeIndices(x);
      var count := Counts(idx, numEmbeddings);
      AccumulateGrows(embeddingSampleAccumulativeCount, count);
      embeddingSampleCount := count;
      embeddingSampleAccumulativeCount := VecAdd(embeddingSampleAccumulativeCount, count);
    }

    /** embeddings.assign(c) with a value of the codebook's shape: the whole
        codebook is replaced, the counters are not touched. */
    method AssignEmbeddings(c: Matrix)
      requires Valid() && IsMatrix(c, embeddingDim, numEmbeddings)
      modifies this`embeddings
      ensures Valid() && embeddings == c
    {
      embeddings := c;
    }
  }

  /** CountActivdeEmbeddings: after every epoch, append the number of
      codewords that have ever been assigned a row. */
  class CountActiveEmbeddings {
    const quantizer: VectorQuantizer
    var numActiveEmbeddingsList: seq<nat>

    /** The recorded history never decreases and never exceeds the current
        number of active codewords. */
    ghost predicate Consistent()
      reads this, quantizer
    {
      NonDecreasing(numActiveEmbeddingsList) &&
      forall i :: 0 <= i < |numActiveEmbeddingsList| ==>
        numActiveEmbeddingsList[i] <= CountNonzero(quantizer.embeddingSampleAccumulativeCount)
    }

    constructor (quantizer: VectorQuantizer)
      ensures this.quantizer == quantizer && numActiveEmbeddingsList == []
      ensures Consistent()
    {
      this.quantizer := quantizer;
      numActiveEmbeddingsList := [];
    }

    method OnEpochEnd()
      requires quantizer.Valid()
      modifies this`numActiveEmbeddingsList
      ensures numActiveEmbeddingsList == old(numActiveEmbeddingsList)
        + [CountNonzero(quantizer.embeddingSampleAccumulativeCount)]
      ensures numActiveEmbeddingsList[|numActiveEmbeddingsList| - 1] <= quantizer.numEmbeddings
      ensures old(Consistent()) ==> Consistent()
    {
      numActiveEmbeddingsList := numActiveEmbeddingsList
        + [CountNonzero(quantizer.embeddingSampleAccumulativeCount)];
    }
  }

  // ---------------------------------------------------------------------
  // Re-initialisation schedule
  // ---------------------------------------------------------------------

  /** What the test `epoch <= init_epochs and epoch % re_init_interval == 0`
      does after an epoch. The `and` short-circuits, so a zero interval only
      raises once the epoch is within the initialisation window. Python's `%`
      and Dafny's `%` differ in sign for negative operands, but the result is
      zero for exactly the same pairs, which is all the test looks at. */
  datatype ReInitDecision = Keep | ReInit | ZeroDivision

  function ReInitDecisionAt(epoch: nat, initEpochs: int, interval: int): (r: ReInitDecision)
    ensures r == ZeroDivision <==> epoch <= initEpochs && interval == 0
    ensures r == ReInit <==> epoch <= initEpochs && interval != 0 && epoch % interval == 0
    ensures r == Keep <==> epoch > initEpochs || (interval != 0 && epoch % interval != 0)
  {
    if epoch > initEpochs then Keep
    else if interval == 0 then ZeroDivision
    else if epoch % interval == 0 then ReInit
    else Keep
  }

  /** The decision depends on the interval only through its magnitude. */
  lemma DecisionIgnoresIntervalSign(epoch: nat, initEpochs: int, interval: int)
    ensures ReInitDecisionAt(epoch, initEpochs, interval) == ReInitDecisionAt(epoch, initEpochs, -interval)
  {
    if interval != 0 && epoch <= initEpochs {
      MultipleOfNegation(epoch, interval);
    }
  }

  lemma MultipleOfNegation(e: nat, r: int)
    requires r != 0
    ensures e % r == 0 <==> e % (-r) == 0
  {
    if e % r == 0 {
      assert e == (e / r) * r;
      assert e == (-(e / r)) * (-r);
      DivisibleByFactor(e, -(e / r), -r);
    }
    if e % (-r) == 0 {
      assert e == (e / (-r)) * (-r);
      assert e == (-(e / (-r))) * r;
      DivisibleByFactor(e, -(e / (-r)), r);
    }
  }

  lemma DivisibleByFactor(e: int, m: int, r: int)
    requires r != 0 && e == m * r
    ensures e % r == 0
  {
    var q, rem := e / r, e % r;
    assert e == q * r + rem && 0 <= rem < if r > 0 then r else -r;
    assert (m - q) * r == rem;
    if m - q != 0 {
      ProductMagnitude(m - q, r);
    }
  }

  /** A nonzero multiple of r is at least |r| in magnitude. */
  lemma ProductMagnitude(a: int, r: int)
    requires a != 0 && r != 0
    ensures a * r >= (if r > 0 then r else -r) || a * r <= -(if r > 0 then r else -r)
  {
    if a > 0 && r > 0 {
      assert a * r == (a - 1) * r + r;
      NonNegativeIntProduct(a - 1, r);
    } else if a > 0 && r < 0 {
      assert a * r == (a - 1) * r + r;
      NonNegativeIntProduct(a - 1, -r);
      assert (a - 1) * (-r) == -((a - 1) * r);
    } else if a < 0 && r > 0 {
      assert a * r == (a + 1) * r - r;
      NonNegativeIntProduct(-(a + 1), r);
      assert (-(a + 1)) * r == -((a + 1) * r);
    } else {
      assert a * r == (a + 1) * r - r;
      NonNegativeIntProduct(-(a + 1), -r);
      assert (-(a + 1)) * (-r) == (a + 1) * r;
    }
  }

  lemma NonNegativeIntProduct(a: int, b: int)
    requires a >= 0 && b >= 0
    ensures a * b >= 0
  {
  }

  /** Within the window, with a positive interval, re-initialisations are
      exactly `interval` epochs apart: none strictly between two, and the next
      one `interval` epochs later. */
  lemma ReInitSpacing(epoch: nat, initEpochs: int, interval: int, j: nat)
    requires interval > 0 && ReInitDecisionAt(epoch, initEpochs, interval) == ReInit
    requires 0 < j <= interval && epoch + j <= initEpochs
    ensures ReInitDecisionAt(epoch + j, initEpochs, interval) == (if j == interval then ReInit else Keep)
  {
    var q := epoch / interval;
    assert epoch == q * interval;
    if j == interval {
      assert epoch + j == (q + 1) * interval;
      DivisibleByFactor(epoch + j, q + 1, interval);
    } else {
      assert epoch + j == q * interval + j;
      ModOfOffset(q, interval, j);
    }
  }

  lemma ModOfOffset(q: int, r: int, j: int)
    requires r > 0 && 0 <= j < r
    ensures (q * r + j) % r == j
  {
    var e := q * r + j;
    var q', rem := e / r, e % r;
    assert e == q' * r + rem && 0 <= rem < r;
    assert (q - q') * r == rem - j;
    if q - q' != 0 {
      ProductMagnitude(q - q', r);
    }
  }

  /** The epochs below `epochs` whose decision is ReInit, in order. */
  function ScheduledReInits(epochs: nat, initEpochs: int, interval: int): seq<nat>
  {
    if epochs == 0 then []
    else
      var earlier := ScheduledReInits(epochs - 1, initEpochs, interval);
      if ReInitDecisionAt(epochs - 1, initEpochs, interval) == ReInit then earlier + [epochs - 1]
      else earlier
  }

  /** The schedule holds exactly the re-initialising epochs, in increasing
      order. */
  lemma {:induction false} ScheduledReInitsExact(epochs: nat, initEpochs: int, interval: int)
    ensures forall e: nat :: e in ScheduledReInits(epochs, initEpochs, interval) <==>
      e < epochs && ReInitDecisionAt(e, initEpochs, interval) == ReInit
    ensures forall i, j :: 0 <= i < j < |ScheduledReInits(epochs, initEpochs, interval)| ==>
      ScheduledReInits(epochs, initEpochs, interval)[i] < ScheduledReInits(epochs, initEpochs, interval)[j]
  {
    if epochs > 0 {
      var earlier := ScheduledReInits(epochs - 1, initEpochs, interval);
      ScheduledReInitsExact(epochs - 1, initEpochs, interval);
      assert forall i :: 0 <= i < |earlier| ==> earlier[i] in earlier;
    }
  }

  /** With a positive interval and a window the run covers, the first
      epoch is always a re-initialisation and the count of them is
      floor(min(epochs - 1, initEpochs) / interval) + 1. */
  lemma {:induction false} ScheduledReInitCount(epochs: nat, initEpochs: int, interval: int)
    requires interval > 0 && initEpochs >= 0 && epochs > 0
    ensures var last := if epochs - 1 <= initEpochs then epochs - 1 else initEpochs;
      |ScheduledReInits(epochs, initEpochs, interval)| == last / interval + 1
  {
    if epochs == 1 {
      assert ScheduledReInits(1, initEpochs, interval) == [0];
    } else {
      ScheduledReInitCount(epochs - 1, initEpochs, interval);
      var e := epochs - 1;
      if e <= initEpochs {
        var q, rem := e / interval, e % interval;
        assert e == q * interval + rem;
        if rem == 0 {
          assert e - 1 == (q - 1) * interval + (interval - 1);
          ModOfOffset(q - 1, interval, interval - 1);
          DivOfOffset(q - 1, interval, interval - 1);
        } else {
          assert e - 1 == q * interval + (rem - 1);
          DivOfOffset(q, interval, rem - 1);
        }
      }
    }
  }

  lemma DivOfOffset(q: int, r: int, j: int)
    requires r > 0 && 0 <= j < r
    ensures (q * r + j) / r == q
  {
    ModOfOffset(q, r, j);
  }

  // ---------------------------------------------------------------------
  // The epoch loop of train_vq_vae
  // ---------------------------------------------------------------------

  /** One training step as seen by the quantiser: the codebook value the
      optimizer writes back, and the encoder's latent batch that is then
      tracked. Both come from collaborators outside this model. */
  datatype Step = Step(optimizedEmbeddings: Matrix, latent: Matrix)

  predicate StepFits(s: Step, d: nat, k: nat)
  {
    IsMatrix(s.optimizedEmbeddings, d, k) && IsBatch(s.latent, d)
  }

  /** The per-codeword counts that tracking one step adds: the latent batch
      assigned against the codebook the optimizer has just written. */
  function StepCounts(step: Step, d: nat, k: nat): (c: Vector)
    requires StepFits(step, d, k) && k > 0
    ensures |c| == k && NonNegative(c)
    ensures Sum(c) == |step.latent| as real
  {
    Counts(CodeIndices(step.latent, step.optimizedEmbeddings, d, k), k)
  }

  /** The all-time counter after tracking `steps` in order, starting from
      `acc`. */
  function Tracked(acc: Vector, steps: seq<Step>, d: nat, k: nat): (t: Vector)
    requires |acc| == k && k > 0
    requires forall s :: 0 <= s < |steps| ==> StepFits(steps[s], d, k)
    ensures |t| == k
    decreases |steps|
  {
    if |steps| == 0 then acc
    else VecAdd(Tracked(acc, steps[..|steps| - 1], d, k), StepCounts(steps[|steps| - 1], d, k))
  }

  /** The number of latent rows in `steps`. */
  function RowsSeen(steps: seq<Step>): real
    decreases |steps|
  {
    if |steps| == 0 then 0.0 else RowsSeen(steps[..|steps| - 1]) + |steps[|steps| - 1].latent| as real
  }

  /** Tracking an epoch's steps keeps the counter non-negative, never lowers
      an entry or the active count, and adds exactly one count per latent
      row seen. */
  lemma {:induction false} TrackedGrows(acc: Vector, steps: seq<Step>, d: nat, k: nat)
    requires |acc| == k && k > 0 && NonNegative(acc)
    requires forall s :: 0 <= s < |steps| ==> StepFits(steps[s], d, k)
    ensures var t := Tracked(acc, steps, d, k);
      NonNegative(t) && PointwiseLe(acc, t) && CountNonzero(acc) <= CountNonzero(t) &&
      Sum(t) == Sum(acc) + RowsSeen(steps)
    decreases |steps|
  {
    if |steps| > 0 {
      var prefix := steps[..|steps| - 1];
      var before := Tracked(acc, prefix, d, k);
      var c := StepCounts(steps[|steps| - 1], d, k);
      TrackedGrows(acc, prefix, d, k);
      AccumulateGrows(before, c);
      SumOfAdd(before, c);
    }
  }

  /** The codebook after the steps of an epoch: the last one the optimizer
      wrote, or the old one when the epoch had no step. */
  function FinalCodebook(before: Matrix, steps: seq<Step>): Matrix
  {
    if |steps| == 0 then before else steps[|steps| - 1].optimizedEmbeddings
  }

  /** The per-step counts after the steps of an epoch: those of the last
      step, or the old ones when the epoch had no step. */
  function LastCounts(before: Vector, steps: seq<Step>, d: nat, k: nat): Vector
    requires k > 0 && forall s :: 0 <= s < |steps| ==> StepFits(steps[s], d, k)
  {
    if |steps| == 0 then before else StepCounts(steps[|steps| - 1], d, k)
  }

  /** train_step as it acts on the quantiser: the optimizer's codebook is
      written back, then the latent batch is tracked against it. */
  method TrainStep(quantizer: VectorQuantizer, tracker: CountActiveEmbeddings, step: Step)
    requires tracker.quantizer == quantizer && quantizer.Valid() && tracker.Consistent()
    requires StepFits(step, quantizer.embeddingDim, quantizer.numEmbeddings)
    modifies quantizer
    ensures quantizer.Valid() && tracker.Consistent()
    ensures quantizer.embeddings == step.optimizedEmbeddings
    ensures quantizer.embeddingSampleCount == StepCounts(step, quantizer.embeddingDim, quantizer.numEmbeddings)
    ensures quantizer.embeddingSampleAccumulativeCount ==
      VecAdd(old(quantizer.embeddingSampleAccumulativeCount),
             StepCounts(step, quantizer.embeddingDim, quantizer.numEmbeddings))
  {
    quantizer.AssignEmbeddings(step.optimizedEmbeddings);
    quantizer.TrackEmbeddingSpace(step.latent);
  }

  /** One epoch of fit: every step writes the optimizer's codebook back and
      then tracks the batch, and the callback records the active count. */
  method FitEpoch(quantizer: VectorQuantizer, tracker: CountActiveEmbeddings, steps: seq<Step>)
    requires tracker.quantizer == quantizer && quantizer.Valid() && tracker.Consistent()
    requires forall s :: 0 <= s < |steps| ==> StepFits(steps[s], quantizer.embeddingDim, quantizer.numEmbeddings)
    modifies quantizer, tracker
    ensures quantizer.Valid() && tracker.Consistent()
    ensures quantizer.embeddings == FinalCodebook(old(quantizer.embeddings), steps)
    ensures quantizer.embeddingSampleCount ==
      LastCounts(old(quantizer.embeddingSampleCount), steps, quantizer.embeddingDim, quantizer.numEmbeddings)
    ensures quantizer.embeddingSampleAccumulativeCount ==
      Tracked(old(quantizer.embeddingSampleAccumulativeCount), steps, quantizer.embeddingDim, quantizer.numEmbeddings)
    ensures tracker.numActiveEmbeddingsList == old(tracker.numActiveEmbeddingsList)
      + [CountNonzero(quantizer.embeddingSampleAccumulativeCount)]
  {
    ghost var acc0, count0, codebook0 := quantizer.embeddingSampleAccumulativeCount,
      quantizer.embeddingSampleCount, quantizer.embeddings;
    var d, k := quantizer.embeddingDim, quantizer.numEmbeddings;
    var s := 0;
    while s < |steps|
      invariant 0 <= s <= |steps|
      invariant quantizer.Valid() && tracker.Consistent()
      invariant tracker.numActiveEmbeddingsList == old(tracker.numActiveEmbeddingsList)
      invariant quantizer.embeddings == FinalCodebook(codebook0, steps[..s])
      invariant quantizer.embeddingSampleCount == LastCounts(count0, steps[..s], d, k)
      invariant quantizer.embeddingSampleAccumulativeCount == Tracked(acc0, steps[..s], d, k)
    {
      ghost var before := quantizer.embeddingSampleAccumulativeCount;
      TrainStep(quantizer, tracker, steps[s]);
      assert steps[..s + 1][..s] == steps[..s];
      assert Tracked(acc0, steps[..s + 1], d, k) == VecAdd(before, StepCounts(steps[s], d, k));
      s := s + 1;
    }
    assert steps[..|steps|] == steps;
    tracker.OnEpochEnd();
  }

  /** The test at the end of an epoch of the per-epoch loop and, when it
      fires for kmpp or pca, the overwrite of the whole codebook. `overwritten`
      is false on a re-initialisation whose matrix has the wrong shape. */
  method ReInitAfterEpoch(quantizer: VectorQuantizer, tracker: CountActiveEmbeddings,
                          tested: bool, assigns: bool,
                          epoch: nat, centroid: Matrix, initEpochs: int, interval: int)
    returns (decision: ReInitDecision, overwritten: bool)
    requires tracker.quantizer == quantizer && quantizer.Valid() && tracker.Consistent()
    modifies quantizer`embeddings
    ensures quantizer.Valid() && tracker.Consistent()
    ensures decision == if tested then ReInitDecisionAt(epoch, initEpochs, interval) else Keep
    ensures overwritten <==> (decision == ReInit && assigns &&
                              IsMatrix(centroid, quantizer.embeddingDim, quantizer.numEmbeddings))
    ensures quantizer.embeddings == if overwritten then centroid else old(quantizer.embeddings)
  {
    decision, overwritten := Keep, false;
    if tested {
      decision := ReInitDecisionAt(epoch, initEpochs, interval);
      if decision == ReInit && assigns &&
         IsMatrix(centroid, quantizer.embeddingDim, quantizer.numEmbeddings) {
        quantizer.AssignEmbeddings(centroid);
        overwritten := true;
      }
    }
  }

  /** One pass of the per-epoch loop: fit for one epoch, then the test. */
  method RunEpoch(quantizer: VectorQuantizer, tracker: CountActiveEmbeddings, tested: bool, assigns: bool,
                  epoch: nat, steps: seq<Step>, centroid: Matrix, initEpochs: int, interval: int)
    returns (decision: ReInitDecision, overwritten: bool)
    requires tracker.quantizer == quantizer && quantizer.Valid() && tracker.Consistent()
    requires forall s :: 0 <= s < |steps| ==> StepFits(steps[s], quantizer.embeddingDim, quantizer.numEmbeddings)
    modifies quantizer, tracker
    ensures quantizer.Valid() && tracker.Consistent()
    ensures quantizer.embeddingSampleCount ==
      LastCounts(old(quantizer.embeddingSampleCount), steps, quantizer.embeddingDim, quantizer.numEmbeddings)
    ensures quantizer.embeddingSampleAccumulativeCount ==
      Tracked(old(quantizer.embeddingSampleAccumulativeCount), steps, quantizer.embeddingDim, quantizer.numEmbeddings)
    ensures tracker.numActiveEmbeddingsList == old(tracker.numActiveEmbeddingsList)
      + [CountNonzero(quantizer.embeddingSampleAccumulativeCount)]
    ensures |tracker.numActiveEmbeddingsList| == |old(tracker.numActiveEmbeddingsList)| + 1
    ensures old(tracker.numActiveEmbeddingsList) <= tracker.numActiveEmbeddingsList
    ensures decision == if tested then ReInitDecisionAt(epoch, initEpochs, interval) else Keep
    ensures overwritten <==> (decision == ReInit && assigns &&
                              IsMatrix(centroid, quantizer.embeddingDim, quantizer.numEmbeddings))
    ensures quantizer.embeddings ==
      if overwritten then centroid else FinalCodebook(old(quantizer.embeddings), steps)
  {
    FitEpoch(quantizer, tracker, steps);
    decision, overwritten := ReInitAfterEpoch(quantizer, tracker, tested, assigns, epoch, centroid,
                                              initEpochs, interval);
  }

  /** How the loop ends: normally, with the ZeroDivisionError of `%`, or
      with the shape error that assign raises for a matrix of the wrong
      shape. `epoch` is the epoch whose end raised. */
  datatype TrainOutcome = Completed | ZeroDivisionError(epoch: nat) | ShapeMismatch(epoch: nat)

  /** Only these two strategies assign a new codebook; every string other
      than "random" still enters the per-epoch loop and evaluates the test. */
  predicate AssignsCodebook(embeddingInit: string)
  {
    embeddingInit == "kmpp" || embeddingInit == "pca"
  }

  function EpochsRun(outcome: TrainOutcome, epochs: nat): nat
  {
    match outcome
    case Completed => epochs
    case ZeroDivisionError(e) => e + 1
    case ShapeMismatch(e) => e + 1
  }

  /** Whether the end of epoch e overwrites the codebook: the strategy
      assigns one, the test holds and the matrix has the codebook's shape. */
  predicate Overwrites(embeddingInit: string, e: nat, centroid: Matrix, initEpochs: int, interval: int,
                       d: nat, k: nat)
  {
    AssignsCodebook(embeddingInit) && ReInitDecisionAt(e, initEpochs, interval) == ReInit &&
    IsMatrix(centroid, d, k)
  }

  /** The codebook at the end of an epoch that started with `before`. */
  function EpochCodebook(before: Matrix, steps: seq<Step>, centroid: Matrix, overwrite: bool): Matrix
  {
    if overwrite then centroid else FinalCodebook(before, steps)
  }

  /** Entry e of a codebook history is what epoch e makes of the codebook
      it started with (`start` for the first epoch). */
  ghost predicate EpochEndsWith(codebooks: seq<Matrix>, e: nat, start: Matrix, epochs: seq<seq<Step>>,
                                centroids: seq<Matrix>, embeddingInit: string, initEpochs: int, interval: int,
                                d: nat, k: nat)
    requires e < |codebooks| && e < |epochs| && e < |centroids|
  {
    codebooks[e] == EpochCodebook(if e == 0 then start else codebooks[e - 1], epochs[e], centroids[e],
                                  Overwrites(embeddingInit, e, centroids[e], initEpochs, interval, d, k))
  }

  /** The codebook after the epochs of a history: its last entry, or the
      starting codebook when no epoch ran. */
  function LatestCodebook(start: Matrix, history: seq<Matrix>): Matrix
  {
    if |history| == 0 then start else history[|history| - 1]
  }

  /** The codebooks at the end of the first n epochs, each what its epoch
      makes of the one before (of `start` for the first). */
  ghost function CodebookHistory(start: Matrix, epochs: seq<seq<Step>>, centroids: seq<Matrix>,
                                 embeddingInit: string, initEpochs: int, interval: int,
                                 d: nat, k: nat, n: nat): (h: seq<Matrix>)
    requires n <= |epochs| && |epochs| == |centroids|
    ensures |h| == n
  {
    if n == 0 then []
    else
      var h := CodebookHistory(start, epochs, centroids, embeddingInit, initEpochs, interval, d, k, n - 1);
      h + [EpochCodebook(LatestCodebook(start, h), epochs[n - 1], centroids[n - 1],
                         Overwrites(embeddingInit, n - 1, centroids[n - 1], initEpochs, interval, d, k))]
  }

  /** Every entry of the history is what its epoch makes of the previous
      entry: the matrix of a re-initialising epoch, otherwise the last
      codebook the optimizer wrote in that epoch. */
  lemma {:induction false} CodebookHistoryChains(start: Matrix, epochs: seq<seq<Step>>, centroids: seq<Matrix>,
                                                 embeddingInit: string, initEpochs: int, interval: int,
                                                 d: nat, k: nat, n: nat)
    requires n <= |epochs| && |epochs| == |centroids|
    ensures forall e :: 0 <= e < n ==>
      EpochEndsWith(CodebookHistory(start, epochs, centroids, embeddingInit, initEpochs, interval, d, k, n),
                    e, start, epochs, centroids, embeddingInit, initEpochs, interval, d, k)
  {
    if n > 0 {
      var h := CodebookHistory(start, epochs, centroids, embeddingInit, initEpochs, interval, d, k, n);
      var previous := CodebookHistory(start, epochs, centroids, embeddingInit, initEpochs, interval, d, k, n - 1);
      CodebookHistoryChains(start, epochs, centroids, embeddingInit, initEpochs, interval, d, k, n - 1);
      forall e | 0 <= e < n
        ensures EpochEndsWith(h, e, start, epochs, centroids, embeddingInit, initEpochs, interval, d, k)
      {
        if e < n - 1 {
          assert EpochEndsWith(previous, e, start, epochs, centroids, embeddingInit, initEpochs, interval, d, k);
          assert h[e] == previous[e];
        }
        if 0 < e {
          assert h[e - 1] == previous[e - 1];
        }
      }
    }
  }

  /** Each listed epoch ended with its re-initialisation matrix. */
  ghost predicate EndsWithCentroids(codebooks: seq<Matrix>, listed: seq<nat>, centroids: seq<Matrix>)
  {
    forall i :: 0 <= i < |listed| ==>
      listed[i] < |codebooks| && listed[i] < |centroids| && codebooks[listed[i]] == centroids[listed[i]]
  }

  /** Extending the history, or listing a further epoch that ended with its
      matrix, keeps every listed epoch's entry. */
  lemma ExtendEndsWithCentroids(codebooks: seq<Matrix>, next: Matrix, listed: seq<nat>, centroids: seq<Matrix>,
                                overwrite: bool)
    requires EndsWithCentroids(codebooks, listed, centroids)
    requires overwrite ==> |codebooks| < |centroids| && next == centroids[|codebooks|]
    ensures EndsWithCentroids(codebooks + [next], listed, centroids)
    ensures overwrite ==> EndsWithCentroids(codebooks + [next], listed + [|codebooks|], centroids)
  {
    var extended := codebooks + [next];
    forall i | 0 <= i < |listed|
      ensures extended[listed[i]] == codebooks[listed[i]]
    {
    }
  }

  /** Every step of every epoch fits the codebook's shape. */
  predicate EpochsFit(epochs: seq<seq<Step>>, d: nat, k: nat)
  {
    forall e, s :: 0 <= e < |epochs| && 0 <= s < |epochs[e]| ==> StepFits(epochs[e][s], d, k)
  }

  /** The all-time counter after the first n epochs, starting from `acc`. */
  ghost function TrackedEpochs(acc: Vector, epochs: seq<seq<Step>>, d: nat, k: nat, n: nat): (t: Vector)
    requires |acc| == k && k > 0 && n <= |epochs|
    requires EpochsFit(epochs, d, k)
    ensures |t| == k
  {
    if n == 0 then acc else Tracked(TrackedEpochs(acc, epochs, d, k, n - 1), epochs[n - 1], d, k)
  }

  /** The per-step counts after the first n epochs, starting from `count`. */
  ghost function CountsAfter(count: Vector, epochs: seq<seq<Step>>, d: nat, k: nat, n: nat): Vector
    requires k > 0 && n <= |epochs|
    requires EpochsFit(epochs, d, k)
  {
    if n == 0 then count else LastCounts(CountsAfter(count, epochs, d, k, n - 1), epochs[n - 1], d, k)
  }

  /** The active counts the callback records at the ends of the first n
      epochs: that of the all-time counter after each. */
  ghost function ActiveHistory(acc: Vector, epochs: seq<seq<Step>>, d: nat, k: nat, n: nat): (h: seq<nat>)
    requires |acc| == k && k > 0 && n <= |epochs|
    requires EpochsFit(epochs, d, k)
    ensures |h| == n
  {
    if n == 0 then [] else ActiveHistory(acc, epochs, d, k, n - 1) + [CountNonzero(TrackedEpochs(acc, epochs, d, k, n))]
  }

  /** The counters of `quantizer` and the list of `tracker` are those after
      the first n epochs, from the counters `acc0`, `count0` and the list `list0`. */
  ghost predicate UsageAfter(acc: Vector, count: Vector, list: seq<nat>, acc0: Vector, count0: Vector,
                             list0: seq<nat>, epochs: seq<seq<Step>>, d: nat, k: nat, n: nat)
  {
    |acc0| == k && k > 0 && n <= |epochs| &&
    EpochsFit(epochs, d, k) &&
    acc == TrackedEpochs(acc0, epochs, d, k, n) &&
    count == CountsAfter(count0, epochs, d, k, n) &&
    list == list0 + ActiveHistory(acc0, epochs, d, k, n)
  }

  /** An epoch that decides and assigns as the loop does extends the
      codebook history by its entry. */
  lemma EpochStep(start: Matrix, epochs: seq<seq<Step>>, centroids: seq<Matrix>, embeddingInit: string,
                  initEpochs: int, interval: int, d: nat, k: nat, e: nat, history: seq<Matrix>, next: Matrix,
                  decision: ReInitDecision, overwritten: bool)
    requires e < |epochs| == |centroids|
    requires history == CodebookHistory(start, epochs, centroids, embeddingInit, initEpochs, interval, d, k, e)
    requires decision == if embeddingInit != "random" then ReInitDecisionAt(e, initEpochs, interval) else Keep
    requires overwritten <==> (decision == ReInit && AssignsCodebook(embeddingInit) && IsMatrix(centroids[e], d, k))
    requires next == if overwritten then centroids[e] else FinalCodebook(LatestCodebook(start, history), epochs[e])
    ensures overwritten == Overwrites(embeddingInit, e, centroids[e], initEpochs, interval, d, k)
    ensures history + [next] == CodebookHistory(start, epochs, centroids, embeddingInit, initEpochs, interval, d, k, e + 1)
  {
  }

  /** One more epoch, tracked on top of the counters after e epochs, gives
      the counters after e + 1. */
  lemma UsageStep(acc: Vector, count: Vector, list: seq<nat>, acc1: Vector, count1: Vector, list1: seq<nat>,
                  acc0: Vector, count0: Vector, list0: seq<nat>, epochs: seq<seq<Step>>, d: nat, k: nat, e: nat)
    requires UsageAfter(acc, count, list, acc0, count0, list0, epochs, d, k, e) && e < |epochs|
    requires acc1 == Tracked(acc, epochs[e], d, k)
    requires count1 == LastCounts(count, epochs[e], d, k)
    requires list1 == list + [CountNonzero(acc1)]
    ensures UsageAfter(acc1, count1, list1, acc0, count0, list0, epochs, d, k, e + 1)
  {
    assert list0 + ActiveHistory(acc0, epochs, d, k, e + 1)
        == (list0 + ActiveHistory(acc0, epochs, d, k, e)) + [CountNonzero(TrackedEpochs(acc0, epochs, d, k, e + 1))];
  }

  /** Over the epochs the all-time counter stays non-negative and lowers no
      entry, so its number of active codewords never falls. */
  lemma {:induction false} TrackedEpochsGrow(acc: Vector, epochs: seq<seq<Step>>, d: nat, k: nat, n: nat)
    requires |acc| == k && k > 0 && n <= |epochs| && NonNegative(acc)
    requires EpochsFit(epochs, d, k)
    ensures var t := TrackedEpochs(acc, epochs, d, k, n);
      NonNegative(t) && PointwiseLe(acc, t) && CountNonzero(acc) <= CountNonzero(t)
  {
    if n > 0 {
      var before := TrackedEpochs(acc, epochs, d, k, n - 1);
      TrackedEpochsGrow(acc, epochs, d, k, n - 1);
      TrackedGrows(before, epochs[n - 1], d, k);
    }
  }

  /** The active counts recorded over the epochs never decrease, and none
      exceeds the active count the counter has reached (nor K). */
  lemma {:induction false} ActiveHistoryGrows(acc: Vector, epochs: seq<seq<Step>>, d: nat, k: nat, n: nat)
    requires |acc| == k && k > 0 && n <= |epochs| && NonNegative(acc)
    requires EpochsFit(epochs, d, k)
    ensures NonDecreasing(ActiveHistory(acc, epochs, d, k, n))
    ensures forall i :: 0 <= i < n ==>
      ActiveHistory(acc, epochs, d, k, n)[i] <= CountNonzero(TrackedEpochs(acc, epochs, d, k, n)) <= k
  {
    if n > 0 {
      var before := TrackedEpochs(acc, epochs, d, k, n - 1);
      var active := CountNonzero(TrackedEpochs(acc, epochs, d, k, n));
      var previous := ActiveHistory(acc, epochs, d, k, n - 1);
      var h := ActiveHistory(acc, epochs, d, k, n);
      ActiveHistoryGrows(acc, epochs, d, k, n - 1);
      TrackedEpochsGrow(acc, epochs, d, k, n - 1);
      TrackedGrows(before, epochs[n - 1], d, k);
      assert h == previous + [active];
      forall i | 0 <= i < n
        ensures h[i] <= active
      {
        if i < n - 1 {
          assert h[i] == previous[i];
        }
      }
      forall i, j | 0 <= i <= j < n
        ensures h[i] <= h[j]
      {
        if j < n - 1 {
          assert h[i] == previous[i] && h[j] == previous[j];
        }
      }
    }
  }

  /** One epoch of train_vq_vae, extending the codebook history by the
      codebook the epoch ends with. */
  method TrainEpoch(quantizer: VectorQuantizer, tracker: CountActiveEmbeddings, embeddingInit: string,
                    e: nat, epochs: seq<seq<Step>>, centroids: seq<Matrix>, initEpochs: int, interval: int,
                    ghost start: Matrix, ghost history: seq<Matrix>,
                    ghost acc0: Vector, ghost count0: Vector, ghost list0: seq<nat>)
    returns (decision: ReInitDecision, overwritten: bool, ghost extended: seq<Matrix>)
    requires tracker.quantizer == quantizer && quantizer.Valid() && tracker.Consistent()
    requires e < |epochs| == |centroids|
    requires forall s :: 0 <= s < |epochs[e]| ==>
      StepFits(epochs[e][s], quantizer.embeddingDim, quantizer.numEmbeddings)
    requires history == CodebookHistory(start, epochs, centroids, embeddingInit, initEpochs, interval,
                                        quantizer.embeddingDim, quantizer.numEmbeddings, e)
    requires quantizer.embeddings == LatestCodebook(start, history)
    requires UsageAfter(quantizer.embeddingSampleAccumulativeCount, quantizer.embeddingSampleCount, tracker.numActiveEmbeddingsList,
                       acc0, count0, list0, epochs, quantizer.embeddingDim, quantizer.numEmbeddings, e)
    modifies quantizer, tracker
    ensures quantizer.Valid() && tracker.Consistent()
    ensures |tracker.numActiveEmbeddingsList| == |old(tracker.numActiveEmbeddingsList)| + 1
    ensures old(tracker.numActiveEmbeddingsList) <= tracker.numActiveEmbeddingsList
    ensures quantizer.embeddingSampleCount ==
      LastCounts(old(quantizer.embeddingSampleCount), epochs[e], quantizer.embeddingDim, quantizer.numEmbeddings)
    ensures quantizer.embeddingSampleAccumulativeCount ==
      Tracked(old(quantizer.embeddingSampleAccumulativeCount), epochs[e], quantizer.embeddingDim, quantizer.numEmbeddings)
    ensures tracker.numActiveEmbeddingsList == old(tracker.numActiveEmbeddingsList)
      + [CountNonzero(quantizer.embeddingSampleAccumulativeCount)]
    ensures UsageAfter(quantizer.embeddingSampleAccumulativeCount, quantizer.embeddingSampleCount, tracker.numActiveEmbeddingsList,
                       acc0, count0, list0, epochs, quantizer.embeddingDim, quantizer.numEmbeddings, e + 1)
    ensures decision == if embeddingInit != "random" then ReInitDecisionAt(e, initEpochs, interval) else Keep
    ensures overwritten == Overwrites(embeddingInit, e, centroids[e], initEpochs, interval,
                                      quantizer.embeddingDim, quantizer.numEmbeddings)
    ensures extended == history + [quantizer.embeddings]
    ensures extended == CodebookHistory(start, epochs, centroids, embeddingInit, initEpochs, interval,
                                        quantizer.embeddingDim, quantizer.numEmbeddings, e + 1)
    ensures overwritten ==> quantizer.embeddings == centroids[e]
  {
    ghost var accBefore, countBefore := quantizer.embeddingSampleAccumulativeCount, quantizer.embeddingSampleCount;
    ghost var listBefore := tracker.numActiveEmbeddingsList;
    decision, overwritten := RunEpoch(quantizer, tracker, embeddingInit != "random", AssignsCodebook(embeddingInit),
                                      e, epochs[e], centroids[e], initEpochs, interval);
    extended := history + [quantizer.embeddings];
    EpochStep(start, epochs, centroids, embeddingInit, initEpochs, interval, quantizer.embeddingDim,
              quantizer.numEmbeddings, e, history, quantizer.embeddings, decision, overwritten);
    UsageStep(accBefore, countBefore, listBefore, quantizer.embeddingSampleAccumulativeCount,
              quantizer.embeddingSampleCount, tracker.numActiveEmbeddingsList, acc0, count0, list0, epochs,
              quantizer.embeddingDim, quantizer.numEmbeddings, e);
  }

  /** What the epoch loop of train_vq_vae has produced after e epochs: the
      outcome so far, the epochs listed as re-initialised and the codebook
      history, from the codebook `start`. */
  ghost predicate RunState(outcome: TrainOutcome, reInitialised: seq<nat>, codebooks: seq<Matrix>, start: Matrix,
                           embeddingInit: string, epochs: seq<seq<Step>>, centroids: seq<Matrix>,
                           initEpochs: int, interval: int, d: nat, k: nat, e: nat)
  {
    e <= |epochs| == |centroids| && |codebooks| == e &&
    (outcome.Completed? || EpochsRun(outcome, |epochs|) == e) &&
    (outcome.ZeroDivisionError? <==> embeddingInit != "random" && e > 0 && 0 <= initEpochs && interval == 0) &&
    (outcome.ZeroDivisionError? ==> outcome.epoch == 0) &&
    (outcome.ShapeMismatch? ==>
       AssignsCodebook(embeddingInit) && ReInitDecisionAt(outcome.epoch, initEpochs, interval) == ReInit &&
       !IsMatrix(centroids[outcome.epoch], d, k)) &&
    reInitialised == (if !AssignsCodebook(embeddingInit) || outcome.ZeroDivisionError? then []
                      else ScheduledReInits(e - (if outcome.ShapeMismatch? then 1 else 0), initEpochs, interval)) &&
    codebooks == CodebookHistory(start, epochs, centroids, embeddingInit, initEpochs, interval, d, k, e) &&
    EndsWithCentroids(codebooks, reInitialised, centroids)
  }

  /** One pass of the epoch loop of train_vq_vae: the epoch, then the
      re-initialisation test. `failure` is the exception the test raises, if
      any, and `listed` the epochs whose codebook a matrix has replaced so
      far. */
  method TrainAndTestEpoch(quantizer: VectorQuantizer, tracker: CountActiveEmbeddings, embeddingInit: string,
                           e: nat, epochs: seq<seq<Step>>, centroids: seq<Matrix>, initEpochs: int, interval: int,
                           reInitialised: seq<nat>, ghost start: Matrix, ghost history: seq<Matrix>,
                           ghost acc0: Vector, ghost count0: Vector, ghost list0: seq<nat>)
    returns (failure: TrainOutcome, listed: seq<nat>, ghost extended: seq<Matrix>)
    requires tracker.quantizer == quantizer && quantizer.Valid() && tracker.Consistent()
    requires e < |epochs|
    requires forall s :: 0 <= s < |epochs[e]| ==>
      StepFits(epochs[e][s], quantizer.embeddingDim, quantizer.numEmbeddings)
    requires RunState(Completed, reInitialised, history, start, embeddingInit, epochs, centroids, initEpochs, interval,
                      quantizer.embeddingDim, quantizer.numEmbeddings, e)
    requires quantizer.embeddings == LatestCodebook(start, history)
    requires UsageAfter(quantizer.embeddingSampleAccumulativeCount, quantizer.embeddingSampleCount,
                        tracker.numActiveEmbeddingsList, acc0, count0, list0, epochs,
                        quantizer.embeddingDim, quantizer.numEmbeddings, e)
    modifies quantizer, tracker
    ensures quantizer.Valid() && tracker.Consistent()
    ensures old(tracker.numActiveEmbeddingsList) <= tracker.numActiveEmbeddingsList
    ensures RunState(failure, listed, extended, start, embeddingInit, epochs, centroids, initEpochs, interval,
                     quantizer.embeddingDim, quantizer.numEmbeddings, e + 1)
    ensures quantizer.embeddings == LatestCodebook(start, extended)
    ensures UsageAfter(quantizer.embeddingSampleAccumulativeCount, quantizer.embeddingSampleCount,
                       tracker.numActiveEmbeddingsList, acc0, count0, list0, epochs,
                       quantizer.embeddingDim, quantizer.numEmbeddings, e + 1)
  {
    var decision, overwritten;
    decision, overwritten, extended := TrainEpoch(quantizer, tracker, embeddingInit, e, epochs, centroids,
                                                  initEpochs, interval, start, history, acc0, count0, list0);
    ExtendEndsWithCentroids(history, quantizer.embeddings, reInitialised, centroids, overwritten);
    failure, listed := Completed, reInitialised;
    if decision == ZeroDivision {
      failure, listed := ZeroDivisionError(e), [];
    } else if decision == ReInit && AssignsCodebook(embeddingInit) && !overwritten {
      failure := ShapeMismatch(e);
    } else if overwritten {
      listed := reInitialised + [e];
    }
  }

  /** The epoch loop of train_vq_vae: it runs the epochs until one raises.
      `ran` is the number of epochs that ran. */
  method EpochLoop(quantizer: VectorQuantizer, tracker: CountActiveEmbeddings, embeddingInit: string,
                   epochs: seq<seq<Step>>, centroids: seq<Matrix>, initEpochs: int, reInitInterval: int)
    returns (outcome: TrainOutcome, reInitialised: seq<nat>, ghost codebooks: seq<Matrix>, ghost ran: nat)
    requires tracker.quantizer == quantizer && quantizer.Valid() && tracker.Consistent()
    requires |centroids| == |epochs|
    requires forall e, s :: 0 <= e < |epochs| && 0 <= s < |epochs[e]| ==>
      StepFits(epochs[e][s], quantizer.embeddingDim, quantizer.numEmbeddings)
    modifies quantizer, tracker
    ensures ran == |epochs| || !outcome.Completed?
    ensures quantizer.Valid() && tracker.Consistent()
    ensures old(tracker.numActiveEmbeddingsList) <= tracker.numActiveEmbeddingsList
    ensures RunState(outcome, reInitialised, codebooks, old(quantizer.embeddings), embeddingInit, epochs, centroids,
                     initEpochs, reInitInterval, quantizer.embeddingDim, quantizer.numEmbeddings, ran)
    ensures quantizer.embeddings == LatestCodebook(old(quantizer.embeddings), codebooks)
    ensures UsageAfter(quantizer.embeddingSampleAccumulativeCount, quantizer.embeddingSampleCount,
                       tracker.numActiveEmbeddingsList, old(quantizer.embeddingSampleAccumulativeCount),
                       old(quantizer.embeddingSampleCount), old(tracker.numActiveEmbeddingsList),
                       epochs, quantizer.embeddingDim, quantizer.numEmbeddings, ran)
  {
    var d, k := quantizer.embeddingDim, quantizer.numEmbeddings;
    ghost var start := quantizer.embeddings;
    ghost var acc0, count0 := quantizer.embeddingSampleAccumulativeCount, quantizer.embeddingSampleCount;
    ghost var list0 := tracker.numActiveEmbeddingsList;
    outcome, reInitialised, codebooks := Completed, [], [];
    var e := 0;
    while e < |epochs| && outcome.Completed?
      invariant e <= |epochs|
      invariant quantizer.Valid() && tracker.Consistent()
      invariant old(tracker.numActiveEmbeddingsList) <= tracker.numActiveEmbeddingsList
      invariant RunState(outcome, reInitialised, codebooks, start, embeddingInit, epochs, centroids,
                         initEpochs, reInitInterval, d, k, e)
      invariant quantizer.embeddings == LatestCodebook(start, codebooks)
      invariant UsageAfter(quantizer.embeddingSampleAccumulativeCount, quantizer.embeddingSampleCount,
                           tracker.numActiveEmbeddingsList, acc0, count0, list0, epochs, d, k, e)
    {
      outcome, reInitialised, codebooks := TrainAndTestEpoch(quantizer, tracker, embeddingInit, e, epochs, centroids,
                                                             initEpochs, reInitInterval, reInitialised, start,
                                                             codebooks, acc0, count0, list0);
      e := e + 1;
    }
    ran := e;
  }

  /** The epochs of train_vq_vae as they act on the quantiser. `epochs[e]`
      are the steps of epoch e; `centroids[e]` is what the kmpp or pca
      initialiser would return at the end of epoch e. The "random" branch
      runs the same epochs through a single fit, without the test.
      `codebooks[e]` is the codebook at the end of epoch e, for every epoch
      that ran (the one that raised included); CodebookHistoryChains says
      what each entry is. */
  method TrainVqVae(quantizer: VectorQuantizer, tracker: CountActiveEmbeddings, embeddingInit: string,
                    epochs: seq<seq<Step>>, centroids: seq<Matrix>, initEpochs: int, reInitInterval: int)
    returns (outcome: TrainOutcome, reInitialised: seq<nat>, ghost codebooks: seq<Matrix>)
    requires tracker.quantizer == quantizer && quantizer.Valid() && tracker.Consistent()
    requires |centroids| == |epochs|
    requires forall e, s :: 0 <= e < |epochs| && 0 <= s < |epochs[e]| ==>
      StepFits(epochs[e][s], quantizer.embeddingDim, quantizer.numEmbeddings)
    modifies quantizer, tracker
    ensures quantizer.Valid() && tracker.Consistent()
    ensures EpochsRun(outcome, |epochs|) <= |epochs|
    ensures |tracker.numActiveEmbeddingsList|
         == |old(tracker.numActiveEmbeddingsList)| + EpochsRun(outcome, |epochs|)
    ensures old(tracker.numActiveEmbeddingsList) <= tracker.numActiveEmbeddingsList
    ensures outcome.ZeroDivisionError? <==>
      embeddingInit != "random" && |epochs| > 0 && 0 <= initEpochs && reInitInterval == 0
    ensures outcome.ZeroDivisionError? ==> outcome.epoch == 0
    ensures outcome.ShapeMismatch? ==>
      AssignsCodebook(embeddingInit) &&
      ReInitDecisionAt(outcome.epoch, initEpochs, reInitInterval) == ReInit &&
      !IsMatrix(centroids[outcome.epoch], quantizer.embeddingDim, quantizer.numEmbeddings)
    ensures reInitialised ==
      if !AssignsCodebook(embeddingInit) || outcome.ZeroDivisionError? then []
      else ScheduledReInits(EpochsRun(outcome, |epochs|) - (if outcome.ShapeMismatch? then 1 else 0),
                            initEpochs, reInitInterval)
    ensures |codebooks| == EpochsRun(outcome, |epochs|)
    ensures quantizer.embeddings == LatestCodebook(old(quantizer.embeddings), codebooks)
    ensures codebooks == CodebookHistory(old(quantizer.embeddings), epochs, centroids, embeddingInit, initEpochs,
                                         reInitInterval, quantizer.embeddingDim, quantizer.numEmbeddings,
                                         EpochsRun(outcome, |epochs|))
    ensures EndsWithCentroids(codebooks, reInitialised, centroids)
    ensures quantizer.embeddingSampleAccumulativeCount ==
      TrackedEpochs(old(quantizer.embeddingSampleAccumulativeCount), epochs, quantizer.embeddingDim,
                    quantizer.numEmbeddings, EpochsRun(outcome, |epochs|))
    ensures quantizer.embeddingSampleCount ==
      CountsAfter(old(quantizer.embeddingSampleCount), epochs, quantizer.embeddingDim, quantizer.numEmbeddings,
                  EpochsRun(outcome, |epochs|))
    ensures tracker.numActiveEmbeddingsList == old(tracker.numActiveEmbeddingsList)
      + ActiveHistory(old(quantizer.embeddingSampleAccumulativeCount), epochs, quantizer.embeddingDim,
                      quantizer.numEmbeddings, EpochsRun(outcome, |epochs|))
  {
    ghost var ran;
    outcome, reInitialised, codebooks, ran := EpochLoop(quantizer, tracker, embeddingInit, epochs, centroids,
                                                        initEpochs, reInitInterval);
  }

  // ---------------------------------------------------------------------
  // Merging the per-epoch training histories
  // ---------------------------------------------------------------------

  /** The history bookkeeping of the per-epoch loop, for one metric key
      (every key is treated alike). `perEpoch[e]` is the single value that the
      fit of epoch e records. At epoch 0 the merged history IS that epoch's
      history object, which then receives its own first value a second time,
      so epoch 0 is recorded twice. `bound` is false when no epoch ran and the
      name `history` is never bound. */
  method MergeHistoryAsWritten(perEpoch: seq<real>) returns (bound: bool, merged: seq<real>)
    ensures bound <==> |perEpoch| > 0
    ensures bound ==> merged == [perEpoch[0]] + perEpoch
    ensures bound ==> |merged| == |perEpoch| + 1 && merged[0] == merged[1]
  {
    bound, merged := false, [];
    var epoch := 0;
    while epoch < |perEpoch|
      invariant 0 <= epoch <= |perEpoch|
      invariant bound <==> epoch > 0
      invariant bound ==> merged == [perEpoch[0]] + perEpoch[..epoch]
    {
      var single := [perEpoch[epoch]];
      if epoch == 0 {
        bound, merged := true, single;
      }
      merged := merged + [single[0]];
      epoch := epoch + 1;
    }
    assert perEpoch[..|perEpoch|] == perEpoch;
  }

  /** The evidently intended merge: every epoch's value recorded once, in
      order. */
  method MergeHistory(perEpoch: seq<real>) returns (bound: bool, merged: seq<real>)
    ensures bound <==> |perEpoch| > 0
    ensures bound ==> merged == perEpoch
  {
    bound, merged := false, [];
    var epoch := 0;
    while epoch < |perEpoch|
      invariant 0 <= epoch <= |perEpoch|
      invariant bound <==> epoch > 0
      invariant merged == perEpoch[..epoch]
    {
      var single := [perEpoch[epoch]];
      bound := true;
      merged := merged + [single[0]];
      epoch := epoch + 1;
    }
    assert perEpoch[..|perEpoch|] == perEpoch;
  }
}
