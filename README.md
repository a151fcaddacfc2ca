# Integer and selection bookkeeping of a mini-batch neural-network trainer

The trainer (`network.c`) fits a fully connected sigmoid network by mini-batch
stochastic gradient descent and scores it on a test set after every epoch. Its
numeric work is double-precision arithmetic spread over OpenMP threads. This
project models the sequential integer and selection logic around that
arithmetic, and proves what it guarantees:

- **Topology offset tables** (`Topology`, from `init`). `ac_neuron[i]` is the
  inclusive prefix sum of the layer widths. `ac_weight[i]` is the prefix sum of
  `layer_size[t] * layer_size[t+1]` over the transitions up to `i`. The loop
  never writes `ac_weight[num_layer-1]`.
- **Mini-batch chunking** (`Chunking`, from `feedforward`). The batch is split
  into `nr_chunk` chunks of `mini_batch_size / nr_chunk` samples, and sample
  `m` of chunk `j` is batch sample `j * chunk_size + m`. The per-sample work is
  opaque; the model is the schedule of (layer, sample) visits.
- **Prediction scoring** (`Evaluator`, from `predict`). The prediction is the
  first index of the largest output activation, and the result is the number of
  test samples whose prediction equals their label.
- **Network state and training loop** (`NeuralNet.Network`, from `init` and
  `train`). `best_recog` starts at 0. Each mini-batch copies the drawn samples'
  inputs into layer 0 and seeds their last-layer error rows as one-hot targets.
  Each epoch ends by scoring the test set and keeping the larger of
  `best_recog` and the new score.

Activation and error values are `real`. They are only copied, zeroed, set to
one and compared. The forward pass's output activations on the test set are a
parameter of `Train`, one set per epoch. So are the `rand() % nr_train` sample
draws, as indices in `[0, nr_train)`.

Files: `topology.dfy`, `chunking.dfy`, `evaluator.dfy`, `network.dfy`, one
module each.

## Model

| member | source | states |
|---|---|---|
| `Topology.ComputeOffsets` | network.c:57-66 | after the loop, `acNeuron[i]` is the sum of the widths of layers 0..i for every layer, and `acWeight[i]` is the sum of `width[t]*width[t+1]` over `t <= i` for every `i < num_layer-1`; `acWeight[num_layer-1]` keeps its previous (unwritten) value |
| `Topology.NeuronOffsetIsPrefixSum` | network.c:57-59 | the running total stored in `ac_neuron[i]` equals the sum of the widths of layers `0..i` |
| `Topology.NeuronOffsetMonotone` | network.c:57-59 | with non-negative widths, the neuron offset table is non-decreasing |
| `Topology.LastNeuronOffsetIsTotal` | network.c:57-59 | the last neuron offset is the network's total neuron count |
| `Topology.NeuronRangesDisjoint` | network.c:57-59 | with non-negative widths, layer j occupies `[ac_neuron[j]-width[j], ac_neuron[j])`; these ranges start at 0, follow one another without gaps, and a later layer's range lies entirely after an earlier one's |
| `Topology.WeightOffsetIsPrefixSum` | network.c:61-65 | the running total stored in `ac_weight[i]` equals the sum of `width[t]*width[t+1]` over the transitions `t <= i` |
| `Topology.LastWeightOffsetIsTotal` | network.c:61-65 | the last written weight offset, `ac_weight[num_layer-2]`, is the network's total weight count |
| `Chunking.SampleIndexInBatch` | network.c:179-194 | every index `j*chunk_size+m` with `j < nr_chunk` and `m < chunk_size` is non-negative and below `nr_chunk*chunk_size`, which is at most `mini_batch_size` |
| `Chunking.SampleIndexInjective` | network.c:185-194 | two (chunk, position) pairs address the same batch sample if and only if they are the same pair |
| `Chunking.SampleIndexOnto` | network.c:180-187 | every sample below `nr_chunk*chunk_size` is addressed by chunk `s / chunk_size`, position `s % chunk_size` |
| `Chunking.CoveredSamples` | network.c:180-187 | the chunks reach exactly `mini_batch_size - mini_batch_size % nr_chunk` samples, which is the whole batch if and only if `nr_chunk` divides it |
| `Chunking.ScheduleCoverage` | network.c:184-200 | for a schedule with those guarantees, in every layer a batch sample is visited if and only if it is not among the last `mini_batch_size % nr_chunk`; when `nr_chunk` divides the batch every sample is visited; no step occurs twice |
| `Chunking.FeedforwardSchedule` | network.c:179-200 | the layer/chunk/position loops visit (layer, sample) steps in strictly increasing order, so each layer finishes before the next starts and no sample is repeated; the visited steps are exactly the layers `0..num_layer-2` crossed with the covered samples; their number is `(num_layer-1)*nr_chunk*chunk_size` |
| `Evaluator.FirstMaxIndex` | network.c:317-325 | the scan's result is an output index whose activation is at least every other activation and strictly greater than every activation at a lower index (first occurrence wins ties) |
| `Evaluator.ArgMax` | network.c:317-325 | `max_idx` lies in `[0, last_layer_size)`, its activation is at least every activation and strictly above every earlier one, and it equals `FirstMaxIndex` |
| `Evaluator.CountCorrect` | network.c:327-331 | the number of matches is at most the number of test samples |
| `Evaluator.CountCorrectIsCorrectSetSize` | network.c:327-331 | the count equals the size of the set of test samples whose prediction equals their label |
| `Evaluator.CountCorrectAll` | network.c:327-331 | the count equals the test-set size if and only if every sample is predicted correctly |
| `Evaluator.Predict` | network.c:286-332 | `nr_true` is exactly the number of test samples whose argmax equals their label, so it lies in `[0, nr_test_data]` |
| `NeuralNet.OneHotPredictsLabel` | network.c:152-155 | a seeded one-hot target row has the output width, and its first largest entry is at the label, so the evaluator would score it as that label |
| `NeuralNet.BestAfterIsMaximum` | network.c:163-165 | after a run of epochs, the tracked best is at least its start value and every epoch's score, and it equals the start value or one of the scores |
| `NeuralNet.BestAfterMonotone` | network.c:163-165 | over a longer prefix of epochs the tracked best is never smaller, so `best_recog` never decreases |
| `NeuralNet.EpochScores` | network.c:162-163 | there is one score per epoch, and each lies in `[0, nr_test_data]` |
| `NeuralNet.Network.Init` | network.c:35-72 | `best_recog` is 0, the offset tables hold the prefix sums above, and the input and target buffers have one row per batch sample and one column per neuron of the first and last layer |
| `NeuralNet.Network.SeedTarget` | network.c:152-155 | after seeding sample `k`, its last-layer error row is 1.0 at the label and 0.0 at every other output index; the other samples' rows are unchanged |
| `NeuralNet.Network.LoadBatch` | network.c:146-156 | every batch sample `k` holds the input row of training sample `draw[k]` in layer 0 and the one-hot target of that sample's label |
| `NeuralNet.Network.RecordEpoch` | network.c:163-165 | `best_recog` becomes the larger of its old value and the epoch's score, and is at least both |
| `NeuralNet.Network.Train` | network.c:130-168 | after the epochs, `best_recog` is the running maximum of its start value and each epoch's `predict` score; it stays non-negative |

## Left out

- Floating-point numerics are not modelled. This covers `sigmoid` and `sigmoid_prime` (network.c:276-284), the dot products and the `zs`/`neuron` values of `feedforward` and `predict`, the deltas of `back_pass`, the weight and bias updates of `backpropagation`, and the `randn` generator (network.c:397-410). Values are opaque `real`s, and NaN is not modelled.
- The weight and bias buffers and their random initialisation (network.c:68-81) are left out. They hold only floating-point values.
- OpenMP parallelism and thread counts are left out. The model is sequential. `FeedforwardSchedule` lists the steps in the order the sequential loops give them.
- Configuration parsing (`json_parsing`, `parse_value`, network.c:40-54) is left out. Its code is not part of this model. The widths and the batch size are parameters of `Network.Init`.
- The MNIST loader `reader` (network.c:87-127), the `report` output (network.c:334-395), the `printf` of `train`, and the timing macros are left out. They are I/O and instrumentation.
- `rand()` is a parameter. The sample draws of `train` (network.c:147) are given to `Train` as indices in `[0, nr_train)`.
- The flat-index macros (`NEURON`, `ERROR`, `WEIGHT`, `BIAS`, `ZS`, `AC_NEURONS`, `TOTAL_*`) are defined in network.h, which is not part of this model. Layer 0's activations and the last layer's error rows are separate per-sample arrays instead. The width of `first_layer_size` (`AC_NEURONS(net, 0)`) is taken to be `layer_size[0]`.
- `predict`'s copy of each test input into sample 0 of layer 0 (network.c:298-300) is left out. It is followed by the unmodelled forward pass, and the next mini-batch overwrites that row anyway.
- `Train` does not state the error rows' final contents. The unmodelled backward pass overwrites the seeded targets with deltas.
- Topology.ComputeOffsets: does not model 32-bit `int` overflow of the running totals. Signed overflow is undefined in C, and realistic topologies stay far below the limit.
- Chunking.FeedforwardSchedule: requires `nr_chunk > 0` and a non-negative batch size. The C code divides by `nr_chunk`, and a negative thread count is outside its configuration contract.
- Evaluator.ArgMax: requires at least one output neuron. The C code reads the first output activation unconditionally.
- NeuralNet.Network.SeedTarget: requires the label to be a valid output index, as the dataset contract promises. The C code would write outside the row otherwise.
- The division `nr_train / mini_batch_size` in `train` assumes `mini_batch_size > 0`, which `Network.Init` requires.
