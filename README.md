# Vector-quantiser codebooks of the SINR compression VQ-VAE

This project models the codebook logic of the two Keras vector-quantiser
layers in `compress_recover/vq_vae.py` (gradient-trained codebook) and
`compress_recover/vq_vae_ema.py` (codebook maintained by exponential moving
averages). TensorFlow is stripped away and every value is an exact `real`.

- `linalg.dfy` (`Linalg`): vectors and matrices as sequences, with reduce_sum, inner
  products, transpose, matmul and squared Euclidean distance. Also the identity
  |u|² + |v|² − 2·u·v = Σ(u_d − v_d)² that `get_code_indices` relies on.
- `codebook.dfy` (`Codebook`): the operations both layers share:
  - the distance matrix and its row-wise argmin;
  - one-hot encodings;
  - per-codeword counts;
  - the quantised value (one-hot times the transposed codebook);
  - per-codeword sums of assigned rows;
  - the mean-squared losses and the straight-through output;
  - the number of active (ever-used) codewords.
- `vq_vae.dfy` (`VqVae`): the gradient layer as a class with its codebook and two usage counters.
  - `CountActivdeEmbeddings` becomes a callback class that appends the active count after every epoch.
  - The re-initialisation test `epoch <= init_epochs and epoch % re_init_interval == 0` becomes a function.
  - The epoch loop of `train_vq_vae` overwrites the whole codebook with an externally computed matrix for "kmpp" and "pca".
  - The history merge of that loop is also modelled (see Findings).
- `vq_vae_ema.dfy` (`VqVaeEma`): the EMA layer as a class whose method `UpdateEmaEmbeddings`
  assigns its fields in the order of the source.
  - Its new state is tied to the value-level function `EmaUpdate`.
  - Lemmas about `EmaUpdate` state what the update means: counts, decayed averages, the epsilon-floored renormalisation, and the accumulation.
  - Also modelled: the active-count part of `LearningRateCallback` and the per-step loop of fit.

A matrix is a sequence of rows. The codebook is D × K and its column j is
codeword j, as in the source. Counts are reals, equal to the multiplicity of
the index among the assignments.

Four facts about the code fix choices in the model:
- `get_code_indices` calls `tf.argmin`, which fixes no tie rule. The model
  proves minimality and range; lowest-index tie-breaking is a modelling
  choice (third `ensures` of `Codebook.ArgMin`).
- `ema_decay` is never range-checked, so the model accepts any decay and
  proves the bounds that need it under 0 ≤ decay ≤ 1.
- The re-initialisation bound `epoch <= init_epochs` is inclusive. Epoch 0
  re-initialises whenever the interval is nonzero and init_epochs ≥ 0.
- Python's `%` floors while Dafny's is Euclidean, so their remainders differ
  for a negative interval. The test only asks whether the remainder is zero.
  In either language that answer does not depend on the interval's sign (for
  the model this is `VqVae.DecisionIgnoresIntervalSign`), and for a positive
  interval the two operators agree, so the model's test is the source's for
  every nonzero interval.

## Model

| member | source | states |
|---|---|---|
| `Linalg.ExpandedSquaredDistance` | compress_recover/vq_vae.py:137-141 | the expansion ‖u‖² + ‖v‖² − 2·u·v equals the coordinate-wise squared Euclidean distance |
| `Codebook.Distances` | compress_recover/vq_vae.py:136-141 | the distance matrix has one row per input row and one column per codeword (N × K) |
| `Codebook.DistancesAreSquaredEuclidean` | compress_recover/vq_vae.py:136-141 | every entry (n, j) of the distance matrix built from one matmul and two reduce_sums is the squared distance of row n to codeword j |
| `Codebook.ArgMin` | compress_recover/vq_vae.py:144 | the index is in range and its entry is no larger than any other; on ties the lowest index wins (a modelling choice) |
| `Codebook.CodeIndices` | compress_recover/vq_vae.py:134-145 | one index per input row, each below K, each a minimum of its row of the distance matrix |
| `Codebook.CodeIndicesAreNearest` | compress_recover/vq_vae.py:136-144 | the chosen codeword of every row is a nearest one: its squared distance is at most that of every column |
| `Codebook.ExactRowGetsEqualCodeword` | compress_recover/vq_vae.py:136-144 | a row equal to some codeword is assigned a codeword equal to it |
| `Codebook.ExactMatchIsSelected` | compress_recover/vq_vae.py:136-144 | a row equal to column c, with no other column equal to it, is assigned index c |
| `Codebook.LookupIsIdempotent` | compress_recover/vq_vae.py:97-99 | quantising an already quantised batch returns the same codewords |
| `Codebook.Counts` | compress_recover/vq_vae.py:126-129 | the column sums of the one-hot encoding are the multiplicities of each index, and they add up to the batch size |
| `Codebook.Quantize` | compress_recover/vq_vae.py:98-99 | the quantised batch has one row per index and D columns (N × D) |
| `Codebook.QuantizeSelectsColumns` | compress_recover/vq_vae.py:98-99 | one-hot times the transposed codebook is the N × D matrix whose row n is column idx[n] of the codebook |
| `Codebook.BatchSums` | compress_recover/vq_vae_ema.py:118 | the per-codeword sums form a D × K matrix, like the codebook |
| `Codebook.BatchSumsAreAssignedSums` | compress_recover/vq_vae_ema.py:118 | column i of flattened-transposed times one-hot is the vector sum of the rows assigned to codeword i (independent recursive definition) |
| `Codebook.MeanSquaredError` | compress_recover/vq_vae.py:109 | reduce_mean of the squared differences is NaN exactly on an empty tensor and otherwise non-negative |
| `Codebook.QuantizationMinimisesError` | compress_recover/vq_vae.py:97-109 | no other choice of codewords gives a smaller total squared error than the nearest-codeword assignment |
| `Codebook.StraightThrough` | compress_recover/vq_vae.py:116 | x + (q − x), element by element, is q in value |
| `Codebook.CountNonzero` | compress_recover/vq_vae.py:280 | count_nonzero is at most the length and is zero exactly when every entry is zero |
| `Codebook.CountNonzeroMonotone` | compress_recover/vq_vae.py:280-281 | growing a non-negative vector pointwise never lowers its number of nonzero entries |
| `Codebook.AccumulateGrows` | compress_recover/vq_vae.py:131 | adding a non-negative count keeps the accumulator non-negative, lowers no entry and never lowers the active count |
| `VqVae.VectorQuantizer.constructor` | compress_recover/vq_vae.py:30-53 | the codebook is the supplied D × K draw and both counters start at zero |
| `VqVae.VectorQuantizer.GetCodeIndices` | compress_recover/vq_vae.py:134-145 | on the layer's codebook: one in-range index per row, each a nearest codeword |
| `VqVae.VectorQuantizer.DataPointsPerCentroid` | compress_recover/vq_vae.py:82-87 | entry i is the number of rows assigned to codeword i, and the entries sum to N |
| `VqVae.VectorQuantizer.Call` | compress_recover/vq_vae.py:90-117 | the output has the input's shape and row n is the selected codeword, a nearest one; the codebook loss is the mean squared error between the output and the input, NaN iff the batch is empty, else ≥ 0; the commitment loss is beta times the codebook loss |
| `VqVae.VectorQuantizer.TrackEmbeddingSpace` | compress_recover/vq_vae.py:120-131 | the batch count becomes the per-codeword count of the same batch, the accumulator grows by it pointwise, the active count does not drop, and the codebook is unchanged |
| `VqVae.VectorQuantizer.AssignEmbeddings` | compress_recover/vq_vae.py:339-344 | the whole codebook becomes the supplied D × K matrix |
| `VqVae.CountActiveEmbeddings.constructor` | compress_recover/vq_vae.py:273-276 | the recorded list starts empty |
| `VqVae.CountActiveEmbeddings.OnEpochEnd` | compress_recover/vq_vae.py:279-281 | appends the number of nonzero accumulator entries, which is at most K, and keeps the list non-decreasing and bounded by the current active count |
| `VqVae.DecisionIgnoresIntervalSign` | compress_recover/vq_vae.py:333 | the re-initialisation test gives the same answer for an interval and its negation |
| `VqVae.ReInitSpacing` | compress_recover/vq_vae.py:333 | inside the window, after a re-initialisation the next one comes exactly `interval` epochs later and none in between |
| `VqVae.ScheduledReInitsExact` | compress_recover/vq_vae.py:324-333 | the scheduled epochs are exactly those below the epoch count where `epoch <= init_epochs and epoch % interval == 0` holds, in increasing order |
| `VqVae.ScheduledReInitCount` | compress_recover/vq_vae.py:324-333 | with a positive interval, init_epochs ≥ 0 and at least one epoch, the run re-initialises floor(min(epochs − 1, init_epochs) / interval) + 1 times, epoch 0 included (with init_epochs < 0 the schedule is empty, by `ScheduledReInitsExact`) |
| `VqVae.StepCounts` | compress_recover/vq_vae.py:123-129 | the counts that tracking one step adds: K non-negative entries summing to the batch size |
| `VqVae.TrackedGrows` | compress_recover/vq_vae.py:129-131 | tracking an epoch's steps keeps the accumulator non-negative, lowers no entry and no active count, and adds exactly one count per latent row |
| `VqVae.TrainStep` | compress_recover/vq_vae.py:239-244 | the codebook becomes the optimizer's value, the batch count is that of the latent batch against the new codebook, and the accumulator grows by it |
| `VqVae.FitEpoch` | compress_recover/vq_vae.py:224-244 | the codebook is the last one the optimizer wrote (the old one for an empty epoch), the batch count is the last step's, the accumulator is the old one plus every step's counts in order, and the callback appends the active count of that accumulator |
| `VqVae.ReInitAfterEpoch` | compress_recover/vq_vae.py:333-344 | the test is evaluated only on the non-"random" path; the codebook is overwritten exactly when the test holds, the strategy is kmpp or pca and the matrix has the codebook's shape |
| `VqVae.RunEpoch` | compress_recover/vq_vae.py:324-344 | one pass of the per-epoch loop: the accumulator grows by every step's counts and its active count is appended; the batch count is the last step's (unchanged for an empty epoch); the test runs only off the "random" path; the codebook ends as the re-initialisation matrix exactly when the overwrite happens, else as the epoch's last optimizer value |
| `VqVae.CodebookHistory` | compress_recover/vq_vae.py:324-344 | the codebooks at the end of the first n epochs, n of them, each epoch applied to the previous entry |
| `VqVae.CodebookHistoryChains` | compress_recover/vq_vae.py:324-344 | entry e of the history is epoch e's matrix when epoch e overwrites (kmpp or pca, test holds, right shape), and otherwise the last codebook the optimizer wrote in epoch e (or the previous entry for an empty epoch) |
| `VqVae.TrainEpoch` | compress_recover/vq_vae.py:324-344 | one pass of the loop extends the codebook history by the codebook the quantiser now holds, which is that epoch's matrix when it overwrites; the batch count becomes the epoch's last step's, the accumulator grows by the epoch's counts, the callback appends that accumulator's active count, and so the counters after e + 1 epochs are the folds `TrackedEpochs`, `CountsAfter` and `ActiveHistory` over those epochs |
| `VqVae.TrainAndTestEpoch` | compress_recover/vq_vae.py:324-344 | one loop iteration including the test and its outcome: ZeroDivisionError exactly when the test divides by a zero interval, a shape error when an overwrite would need a matrix of the wrong shape, and otherwise the epoch is added to the re-initialised list exactly when it overwrote; the run state, codebook history and counter folds then hold for e + 1 epochs |
| `VqVae.EpochLoop` | compress_recover/vq_vae.py:324-344 | the per-epoch loop runs until every epoch is done or one raises; after it, the run state, codebook history and counter folds hold for the number of epochs run |
| `VqVae.TrackedEpochsGrow` | compress_recover/vq_vae.py:129-131 | over any number of whole epochs the accumulator stays non-negative, lowers no entry and never loses an active codeword |
| `VqVae.ActiveHistoryGrows` | compress_recover/vq_vae.py:279-281 | the active counts the callback records over successive epochs are non-decreasing, and each is at most the final active count, which is at most K |
| `VqVae.TrainVqVae` | compress_recover/vq_vae.py:315-344 | one active count per epoch run; ZeroDivisionError iff a non-"random" run has an epoch, init_epochs ≥ 0 and interval 0 (and then at epoch 0); the overwrites happen at exactly the scheduled epochs for kmpp and pca, never for other strings; `codebooks` holds one codebook per epoch run, equal to the history the epochs define, whose last entry (or the starting codebook) is the final codebook; every listed re-initialisation epoch ended with its matrix; the accumulator is the starting one grown by every step of every epoch run (`TrackedEpochs`), the batch count is that of the last step run (`CountsAfter`), and the recorded list is the old one followed by the active count after each epoch run (`ActiveHistory`) |
| `VqVae.ReInitDecisionAt` | compress_recover/vq_vae.py:333 | three outcomes: ZeroDivisionError exactly when epoch ≤ init_epochs and the interval is 0; re-initialise exactly when epoch ≤ init_epochs, the interval is nonzero and divides the epoch; keep otherwise |
| `VqVae.MergeHistoryAsWritten` | compress_recover/vq_vae.py:328-332 | as written, the merged history is epoch 0's value, then every epoch's value once ([v0] + perEpoch) |
| `VqVae.MergeHistory` | compress_recover/vq_vae.py:328-332 | the intended merge holds each epoch's value once, in order |
| `VqVaeEma.SafeDivisor` | compress_recover/vq_vae_ema.py:122 | max(c, 1e-5) is at least 1e-5, is c or 1e-5, and is c whenever c ≥ 1e-5 |
| `VqVaeEma.DecayedBetween` | compress_recover/vq_vae_ema.py:115 | with a decay in [0, 1] the average lies between the old and the new value |
| `VqVaeEma.Normalized` | compress_recover/vq_vae_ema.py:122 | every new codebook entry times the floored count of its column gives back the running sum |
| `VqVaeEma.EmaUpdate` | compress_recover/vq_vae_ema.py:103-128 | the update (assignment by the codebook as it was on entry, then the EMA step) keeps every field's D × K or K shape |
| `VqVaeEma.EmaStep` | compress_recover/vq_vae_ema.py:108-128 | the EMA step on a well-shaped state, a batch of D-wide rows and in-range indices gives a well-shaped state: D × K codebook and running sum, K-long count average and all-time counter |
| `VqVaeEma.EmaStepCounts` | compress_recover/vq_vae_ema.py:108-112 | the stored count is the number of rows assigned to each codeword, and these sum to N |
| `VqVaeEma.EmaCountBounded` | compress_recover/vq_vae_ema.py:115 | the new count average is decay·old + (1 − decay)·count, lies between the two, and stays non-negative |
| `VqVaeEma.EmaSumIsDecayedAssignedSum` | compress_recover/vq_vae_ema.py:118-119 | column i of the running sum becomes decay·old + (1 − decay)·(sum of the rows assigned to i) |
| `VqVaeEma.EmaCodebookNormalized` | compress_recover/vq_vae_ema.py:115-125 | the new codebook is the new running sum divided by the ALREADY UPDATED count average, floored at 1e-5 |
| `VqVaeEma.EmaAccumulates` | compress_recover/vq_vae_ema.py:128 | the all-time counter grows by the batch count: non-negative, pointwise non-decreasing, active count non-decreasing and at most K |
| `VqVaeEma.NoDecayMovesToCentroid` | compress_recover/vq_vae_ema.py:115-122 | with decay 0 a used codeword becomes the mean of the rows assigned to it |
| `VqVaeEma.UnusedCodewordStays` | compress_recover/vq_vae_ema.py:115-125 | with a positive decay, a codeword no row chose, whose value was its sum over its count, keeps its value while the decayed count stays above the floor |
| `VqVaeEma.VectorQuantizerEma.constructor` | compress_recover/vq_vae_ema.py:30-62 | the codebook is the supplied draw, every EMA statistic starts at zero and EMA training is on |
| `VqVaeEma.VectorQuantizerEma.EnableTrainingEma` | compress_recover/vq_vae_ema.py:65-66 | sets the flag and changes nothing else |
| `VqVaeEma.VectorQuantizerEma.DisableTrainingEma` | compress_recover/vq_vae_ema.py:69-70 | clears the flag and changes nothing else |
| `VqVaeEma.VectorQuantizerEma.GetCodeIndices` | compress_recover/vq_vae_ema.py:131-142 | one in-range index per row, each a nearest codeword; only the codebook is read |
| `VqVaeEma.VectorQuantizerEma.Call` | compress_recover/vq_vae_ema.py:73-100 | the output is the selected (nearest) codewords; the one registered loss is the unscaled mean squared error, NaN iff the batch is empty, else ≥ 0; reads only the codebook, so neither the flag nor the statistics matter and nothing changes |
| `VqVaeEma.VectorQuantizerEma.UpdateEmaEmbeddings` | compress_recover/vq_vae_ema.py:103-128 | the new fields are the value-level update of the old ones, assigned in the source's order; the flag is outside the frame; the layer stays well shaped and the active count does not drop |
| `VqVaeEma.LearningRateCallback.constructor` | compress_recover/vq_vae_ema.py:300-304 | the recorded active-count list starts empty |
| `VqVaeEma.LearningRateCallback.OnEpochEnd` | compress_recover/vq_vae_ema.py:312-313 | appends the number of nonzero accumulator entries, at most K, keeping the list non-decreasing and bounded by the current active count |
| `VqVaeEma.EmaUpdates` | compress_recover/vq_vae_ema.py:250-271 | the layer state after the EMA update on each batch in order keeps every field's shape |
| `VqVaeEma.EmaUpdatesAppend` | compress_recover/vq_vae_ema.py:250-271 | updating on two runs of batches is updating on the first, then on the second |
| `VqVaeEma.EmaEpochsFlatten` | compress_recover/vq_vae_ema.py:250-271 | the epoch boundaries do not matter: the epochs move the layer exactly as all their batches run back to back |
| `VqVaeEma.EmaUpdatesAccumulate` | compress_recover/vq_vae_ema.py:128 | over any run of batches the all-time counter stays non-negative, lowers no entry, and its active count does not drop and stays at most K |
| `VqVaeEma.UpdateOnBatch` | compress_recover/vq_vae_ema.py:270-271 | one step moves the layer from where the first s batches of the epoch leave it to where the first s + 1 leave it |
| `VqVaeEma.EmaEpoch` | compress_recover/vq_vae_ema.py:250-271 | one epoch: the layer state is the EMA updates of its batches in order, and the callback appends the resulting active count |
| `VqVaeEma.TrainEma` | compress_recover/vq_vae_ema.py:250-271 | the layer state after fit is the EMA update of every batch of every epoch in order; the layer stays valid, the flag is untouched and one count is recorded per epoch |

## Left out

- Gradients, `tf.stop_gradient`, `GradientTape`, optimizer steps and `add_loss` bookkeeping. Only values are modelled.
  - In the gradient variant, the codebook the optimizer writes back after each step is a parameter (`Step.optimizedEmbeddings`).
- VqVaeEma.TrainEma: the EMA trainer's gradient steps are assumed never to change the codebook.
  - The straight-through output and the stop-gradient in the commitment loss cut every gradient path to it, so only `update_ema_embeddings` moves it.
  - The encoder's latent batches are parameters.
- IEEE float32 rounding is not modelled. Arithmetic is exact over `real`, the literal 1e-5 is the exact rational 1/100000, and counts never lose precision.
- Reshaping is not modelled. Inputs are taken as already flattened N × D batches, so the reshape back to the input shape is the identity.
- Random initialisers are the constructors' `initial` parameter.
- The kmpp and pca initialisers are not modelled. Their results are the opaque matrices `centroids[e]`, and the encoder prediction they are computed from is not modelled.
- VqVae.VectorQuantizer.constructor and VqVaeEma.VectorQuantizerEma.constructor require at least one codeword. With K = 0 `tf.argmin` fails on an empty axis; that failure is not modelled.
- Codebook.ArgMin: lowest-index tie-breaking is a modelling choice that `tf.argmin` does not promise. The properties that matter (minimality, range) are stated separately.
- VqVae.TrainVqVae: the "random" branch's single multi-epoch `fit` is modelled as the same epochs without the test. The quantiser sees the same steps with either choice.
- VqVaeEma.TrainEma: the recorded active counts are stated by their number and as an extension of the old list. Their values are stated per epoch, by `VqVaeEma.EmaEpoch`.
- VqVae.TrainVqVae: for an init string other than "random", "kmpp" and "pca", the later `NameError` when picking the save path is not modelled (it belongs to the I/O part).
- VqVaeEma.EmaCodebookNormalized: the fact that the divisor is at least 1e-5, and so never zero, is stated on `SafeDivisor`, not repeated in this lemma.
- The codebook loss of the EMA layer's `call` is computed but never registered or returned, so it is left out.
- Keras plumbing is not modelled:
  - `create_quantized_autoencoder`, `create_quantized_autoencoder_EMA`, `create_encoder`, `create_decoder`, BatchNormalization;
  - the loss trackers, and the reconstruction and total losses of both `train_step`s;
  - the returned metric dictionaries. One quirk is left out with them: the gradient trainer logs the codebook-loss tracker under the key "commitment_loss".
- The learning-rate telemetry is not modelled: `LearningRateTracker` in `vq_vae.py` and the float-only learning-rate expression logged by the EMA `LearningRateCallback`. Only its active count is modelled.
- `LatentEntropyCallback` and the `EarlyStopping` object are not modelled (the latter is never passed to `fit`).
- `set_auxiliary_trainable_true/false`, `get_config` and `tensors_to_numpy_list` are not modelled. They only re-wrap or convert values.
- I/O is not modelled: data preparation, h5py history files, weight saving and loading, path construction, plotting, `print`, sklearn's MSE, and `test_vq_vae` in both files.

## Findings

| source | as written | input that shows it | evidently intended | confidence | as-written member | corrected member |
|---|---|---|---|---|---|---|
| compress_recover/vq_vae.py:328-332 | at epoch 0 `history` is bound to that epoch's own history object, and the loop then appends that object's first value to itself, so epoch 0 appears twice in the saved history | any run with at least one epoch through the per-epoch loop, e.g. per-epoch values [a, b] merge to [a, a, b] | each epoch recorded once: [a, b] | not executed | `VqVae.MergeHistoryAsWritten` | `VqVae.MergeHistory` |
