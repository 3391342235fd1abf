# ga-car: the RBFN and its genetic-algorithm driver, in Dafny

This project models the core of ga-car. ga-car trains a radial basis function
network (RBFN) with a genetic algorithm. The model covers three things:

- the network of `rbfn.py`: one threshold neuron followed by Gaussian neurons;
- the "chromosome" codec that `RBFN.load_model` reads;
- the parts of `ga.py` that build the initial population, score an individual
  (`fitting_func`) and run the evaluate-and-report loop.

All three modules verify together. They are:

- `chromosome.dfy` (module `Chromosome`): the codec, as pure functions.
  - A chromosome for n neurons over inputs of dimension d is
    `[threshold sw | n-1 weights | (n-1)*d means | n-1 sds]`.
  - `Decode` cuts a vector with Python's slice semantics (`PySlice`, `Bound`),
    so vectors of any length of at least n behave as in the source.
  - `DataDim` recovers d as `int(len(means) / (n-1))`. It is written as a
    quotient by repeated subtraction, and `QuotientIsDivision` proves it is
    the floor.
  - Each mean is the chunk `means[k*d:(k+1)*d]`. It is written as "drop k
    chunks, then take one", and `ChunkIsSlice` proves it equals the slice.
  - The lemmas prove the round trip in both directions for vectors of the
    layout length, and say where every segment lies.
- `rbfn.dfy` (module `Rbfn`): the neurons and the network.
  - `Neuron` and `Network` are classes whose fields the methods update in
    place: `LoadModel`, `InputData`, `Output`.
  - The kernel and antinormalisation are functions.
  - Each neuron's state is also a value (`NeuronState`). Load (`Load`) and
    feed (`Fed`) are stated on those values, so lemmas can be proved about
    them: load is idempotent, the network carries the decoded parameters,
    and the output equals a reference output computed from the decoded
    parameters.
- `ga.dfy` (module `Ga`):
  - the default mean range;
  - the population `GA.__init__` draws, and what each individual decodes to;
  - `fitting_func` as a method on a network, proved equal to the function
    `Fitting` of the decoded model;
  - the evaluation of a population;
  - `GA.run` and `GA.stop` as methods on a `GA` class.

These are inputs the model takes as parameters:

- **Random draws:** any value within the draw's bounds (`Uniform`, `UniformVector`).
- **`math.exp`:** a parameter `exp`. The lemmas that need its properties assume
  `IsExp(exp)`: exp is positive, and at most 1 on arguments that are not positive.
- **`stop()`, called by another thread:** a predicate `stopRequested`. It says,
  for each iteration, whether `stop` was called before that iteration checked
  the abort flag.
- **Qt signals:** `Run` and `Stop` return them as a list of `Event`s.

Some facts about the code that the model keeps:

- **Length checks.** `load_model` checks no length. A vector at least as long
  as the neuron count but not of the layout length is cut by Python's slice
  rules, with no error.
- **sd draws.** Individuals draw their sds from `uniform(0, sd_max)`, which can
  return 0.
- **Evolution.** There is no selection, crossover, mutation or clipping. `run`
  re-scores the same population every iteration. It then emits the network it
  was given, which was never loaded from a chromosome.
- **Error measure.** The error is `0.5 * sum of squared residuals`.

## Model

| member | source | states |
|---|---|---|
| Chromosome.Bound | rbfn.py:37-39 | Where a Python slice bound lands: at most the length; a non-negative bound in range is kept; a negative one counts from the end. |
| Chromosome.PySlice | rbfn.py:37-39 | Python's `s[lo:hi]` is never longer than s, and is the plain slice when `0 <= lo <= hi <= len(s)`. |
| Chromosome.QuotientBounds | rbfn.py:40 | The recovered quotient q of a by b leaves a remainder in [0, b): `q*b <= a < q*b + b`. |
| Chromosome.QuotientIsDivision | rbfn.py:40 | The quotient is the floor of a / b, which is what `int(len(means) / (nneuron - 1))` computes for non-negative lengths. |
| Chromosome.QuotientOfMultiple | rbfn.py:40 | Dividing b*c by b gives c back. |
| Chromosome.DataDimFits | rbfn.py:38-40 | n-1 means of the recovered dimension fit in the means segment, and that segment lies inside the vector. |
| Chromosome.MeansSlice | rbfn.py:38 | `params[n:-(n-1)]` is the block of values right after the weights, of length `len - (n-1) - n` when that is positive, and empty otherwise. |
| Chromosome.ChunkIsSlice | rbfn.py:43 | Chunk k of the means is exactly the Python slice `means[k*d:(k+1)*d]`, out-of-range bounds included. |
| Chromosome.ChunkSlice | rbfn.py:43 | A chunk that lies inside the sequence is the plain slice from k*d to k*d + d. |
| Chromosome.Decode | rbfn.py:35-44 | Decoding for n neurons always yields n-1 weights, n-1 means and n-1 sds. |
| Chromosome.DecodeScalars | rbfn.py:36-39 | The threshold weight is `p[0]`, the weights are `p[1..n]` and the sds are the last n-1 values. |
| Chromosome.DecodeMeans | rbfn.py:38-43 | Every decoded mean has the recovered dimension d, and the means laid end to end are `p[n .. n + (n-1)*d]`. |
| Chromosome.DecodeMean | rbfn.py:41-43 | Mean k is `p[n + k*d .. n + (k+1)*d]`, and its bounds lie inside the vector. |
| Chromosome.FlattenChunks | rbfn.py:41-43 | Cutting the first m*d values into m chunks of size d and joining them again gives those values back. |
| Chromosome.FlattenInjective | rbfn.py:41-43 | Two lists of means of the same dimension that join to the same vector are equal. |
| Chromosome.DataDimRecovered | rbfn.py:35-40 | For a vector of length `n + (n-1)*d + (n-1)` with n >= 2, `load_model` recovers exactly d. |
| Chromosome.EncodeDecode | rbfn.py:35-44 | For a vector of the layout length, the segments are consecutive and cover it exactly: decoding and re-encoding gives it back, with every mean of dimension d. |
| Chromosome.EncodeSegments | ga.py:41-44 | The chromosome of a model has the layout length, and each segment sits where `GA.__init__` places it. |
| Chromosome.DecodeEncode | rbfn.py:35-44 | Decoding the chromosome of a well-shaped model gives the model back. |
| Rbfn.Uniform | rbfn.py:79 | A draw of `random.uniform(a, b)` lies between a and b, in either order. |
| Rbfn.UniformVector | rbfn.py:95 | A draw of `np.random.uniform(a, b, size)` has `size` values, each between a and b. |
| Rbfn.Antinormalize | rbfn.py:47-52 | The result always lies in [-40, 40]. |
| Rbfn.Clamp | rbfn.py:47-52 | The reference clamp lies in [-1, 1], and it is the identity exactly on [-1, 1]. |
| Rbfn.AntinormalizeClamps | rbfn.py:47-52 | Antinormalisation is 40 times the input clamped to [-1, 1]: -40 below -1, 40 above 1, 40*v in between. |
| Rbfn.AntinormalizeMonotone | rbfn.py:47-52 | Antinormalisation is monotone non-decreasing. |
| Rbfn.SqDist | rbfn.py:102 | `(x - m).dot(x - m)` is non-negative, and 0 when x equals m. |
| Rbfn.KernelExponent | rbfn.py:101-102 | For a positive sd, the kernel's exponent is not positive for a non-negative distance, and is 0 at distance 0. |
| Rbfn.GetOutput | rbfn.py:98-102 | A Gaussian neuron outputs 0 when `sd <= 0`, and 0 when its weight is 0. |
| Rbfn.GetOutputBounded | rbfn.py:98-102 | If exp behaves like exp: the output lies between 0 and sw and has sw's sign; with sd > 0 it is non-zero when sw is; at the mean it is `sw * exp(0)`. |
| Rbfn.FedDeterministic | rbfn.py:90-96 | Once a neuron's mean is set, or it is the threshold, feeding it an input has exactly one outcome. |
| Rbfn.ThresholdOutput | rbfn.py:91-92 | The threshold neuron outputs its weight, whatever the input. |
| Rbfn.DegenerateOutput | rbfn.py:99-100 | A Gaussian neuron with `sd <= 0` outputs exactly 0. |
| Rbfn.Load | rbfn.py:35-44 | Loading keeps the number of neurons; each neuron takes its parameters from `Decode(n, p)`. |
| Rbfn.LoadFromSlices | rbfn.py:41-44 | States left by the loop's per-neuron assignments, with neuron 0 taking `params[0]`, are exactly `Load(us, p)`. |
| Rbfn.LoadKeepsShape | rbfn.py:35-44 | Loading changes no neuron's kind, mean range, last input or last output, and keeps the threshold neuron first and alone. |
| Rbfn.LoadIdempotent | rbfn.py:35-44 | Loading the same vector twice leaves the same state as loading it once. |
| Rbfn.LoadCarries | rbfn.py:35-44 | After loading p, the network carries `Decode(n, p)`, whatever it held before. |
| Rbfn.LoadScalars | rbfn.py:36-44 | After loading p, the threshold weight is `p[0]`; Gaussian neuron k has weight `p[k]` and sd `p[len - (n-1) + (k-1)]`. |
| Rbfn.LoadMeanAt | rbfn.py:38-43 | After loading p, the Gaussian neuron at index j+1 has mean `p[n + j*d .. n + (j+1)*d]`, d the recovered dimension. |
| Rbfn.FedCarries | rbfn.py:13-17 | Feeding x to a network that carries q leaves it carrying q. The summed output is then the reference output `ModelOutput(q, x)`, so the lazy random mean is never drawn. |
| Rbfn.CarriesAdmits | rbfn.py:94-102 | A network carrying a model that fits x accepts x at every neuron without a shape error. |
| Rbfn.Neuron.constructor | rbfn.py:56-81 | A new neuron's mean range is the given one, or (-1, 1) by default. It keeps the given mean, sd and kind, its weight lies in [-1, 1], and it has no input or output yet. |
| Rbfn.Neuron.Copy | ga.py:57 | The deep copy of a neuron has the same state. |
| Rbfn.Neuron.SetParameters | rbfn.py:42-44 | The weight, mean and sd are replaced, and nothing else changes. |
| Rbfn.Neuron.InputData | rbfn.py:83-96 | The neuron moves to a state `Fed` allows. The input is recorded. The threshold neuron outputs its weight. A Gaussian neuron keeps a set mean, or gets a random one of the input's dimension within its mean range, and then outputs its kernel. |
| Rbfn.Network.constructor | rbfn.py:8-11 | `nneuron + 1` fresh, distinct neurons. The threshold neuron is at index 0 and is the only one. No neuron has a mean, input or output yet. Gaussian sds lie in [0, sd_max]. |
| Rbfn.Network.Copy | ga.py:57 | `copy.deepcopy` of a network: fresh neurons in the same states. |
| Rbfn.Network.LoadModel | rbfn.py:22-44 | In place, the neuron states become `Load(old states, p)`, and the network stays valid. |
| Rbfn.Network.AssignGaussians | rbfn.py:41-44 | Gaussian neuron idx+1 gets weight idx, chunk idx of the means and sd idx. Neuron 0 is untouched. |
| Rbfn.Network.Output | rbfn.py:13-20 | Every neuron is fed x. The result is the sum of the neuron outputs, antinormalised when asked. |
| Rbfn.Network.SumOutputs | rbfn.py:17 | The loop computes `sum(n.output for n in self.neurons)`. |
| Rbfn.Network.FeedAll | rbfn.py:15-16 | Every neuron moves to a state `Fed` allows for x, and each one has an output. |
| Ga.SeqMin | ga.py:31 | `min(v)` is at most every element and is one of them. |
| Ga.SeqMax | ga.py:32 | `max(v)` is at least every element and is one of them. |
| Ga.DefaultMeanRange | ga.py:30-32 | The default range contains every input component of the dataset, and both ends are components. So lo <= hi. |
| Ga.NewIndividual | ga.py:41-44 | One drawn individual has the layout length. Its first n genes lie in [-1, 1], the next (n-1)*d in the mean range, and the last n-1 in [0, sd_max]. |
| Ga.InitPopulation | ga.py:39-45 | The population holds exactly `population_size` individuals (none for a negative size), and each one is an individual as above. |
| Ga.IndividualDecodes | ga.py:41-44 | An individual decodes with d recovered. Its threshold weight and weights lie in [-1, 1], every mean lies in the mean range, and every sd lies in [0, sd_max]. |
| Ga.LayoutFits | ga.py:37-44 | An individual of the layout length for the first sample's dimension fits every sample of a dataset of uniform dimension. |
| Ga.SquaredErrors | ga.py:90 | A sum of squared residuals is non-negative. |
| Ga.Fitting | ga.py:90 | The error of a model on a dataset is non-negative. |
| Ga.FittingZero | ga.py:90 | The error is 0 exactly when every sample's antinormalised output equals its target. |
| Ga.FittingAppend | ga.py:90 | Adding a sample adds half its squared residual to the error. |
| Ga.FittingFunc | ga.py:74-90 | `fitting_func` returns `Fitting(Decode(n, indiv), dataset)`, whatever the network held before, and leaves the network carrying the decoded model. |
| Ga.SumSquaredErrors | ga.py:90 | Feeding each sample in turn and summing the squared errors gives `SquaredErrors` of the carried model. |
| Ga.Errors | ga.py:55-58 | There is one error per individual. |
| Ga.PopulationEvaluable | ga.py:37-45 | A drawn population over a dataset of uniform dimension can be scored without a shape error. |
| Ga.Evaluate | ga.py:54-58 | The map over the population on a deep copy gives `Errors`: the i-th result is the error of individual i. The network itself is untouched. |
| Ga.FitEach | ga.py:55-58 | Scoring the individuals in order on one network gives `Errors`, whatever the network held before. |
| Ga.TraceLength | ga.py:49-60 | k iterations emit k * (population size + 1) events. |
| Ga.TraceNumbers | ga.py:49-52 | The iteration numbers are emitted in order: 0, 1, ..., k-1. |
| Ga.TraceErrors | ga.py:59-60 | The errors are emitted as the population's errors in population order, once per iteration. |
| Ga.Performed | ga.py:49-51 | The number of iterations is at most the total. No iteration before it was asked to stop, and if it is below the total, that iteration was asked to stop. |
| Ga.PerformedUnique | ga.py:49-51 | Those properties determine the number of iterations. |
| Ga.GA.constructor | ga.py:20-45 | The settings are stored and the abort flag is down. The population holds `population_size` individuals (none for a negative size). Each one has the layout for the network's neuron count and the first sample's dimension. Its genes lie within bounds set by the given mean range, or by the default range when none is given. |
| Ga.GA.ConstructedReady | ga.py:37-45 | A constructed GA over a valid network can evaluate its population when the population is empty, or when the network has a Gaussian neuron and the dataset has uniform dimension. |
| Ga.GA.RunIteration | ga.py:52-60 | One iteration emits its number and then the error of every individual, in population order. |
| Ga.GA.Stop | ga.py:65-71 | The abort flag goes up. A console warning is emitted exactly when the thread is running. Nothing else changes. |
| Ga.GA.Run | ga.py:47-63 | k is the number of iterations: 0 when the flag was already up, and otherwise the first iteration asked to stop (at most `iter_times`). With k = 0 the only event is `RbfnReady`, for any network and population. Otherwise the events are `Trace(k, Errors)` followed by `RbfnReady`. The population needs to be evaluable only when iteration 0 evaluates. The flag ends up raised exactly when the run was cut short or was already aborted. Population, dataset and network are not changed. |

## Left out

- The GUI, Qt threads and signal wiring (`QThread`, `pyqtSignal`). Signals are returned events.
- `stop` is modelled only at the point where `run` reads the flag, which is the only place the flag is read.
- `mp.Pool` and pickling: the map is sequential. The model makes one deep copy per iteration and loads every individual into it in turn. The real pool pickles the copy once per chunk of tasks, so tasks share copies in a way the model does not fix. This is harmless: `FittingFunc` proves the error does not depend on what the network held before.
- `time.time()` and `print` in `run` (ga.py:48, 62): they only measure and print the elapsed time.
- The distributions of `random.uniform` and `np.random.uniform`: only their bounds are modelled.
- `math.exp` is a parameter, and floating point is replaced by `real`. Under float rounding, `int(len(means) / (n-1))` is modelled as the exact floor.
- Rbfn.KernelExponent: the source's `d2 / (-2 * sd**2)` is written as `-(d2 / sd / sd) / 2`, which is equal over the reals.
- Failures modelled as preconditions:
  - numpy shape errors (`Admits`, `Fits`, with no broadcasting);
  - the `ZeroDivisionError` of `load_model` with one neuron, and its `IndexError` on a vector shorter than the neuron count (`n >= 2`, `|p| >= n`);
  - the `IndexError` of ga.py:37 on an empty dataset;
  - the `ValueError` of `min`/`max` on an empty input.
- Rbfn.Network.constructor: the threshold neuron's sd is `Neuron`'s default argument. Python draws it once, when the module loads. The model draws any value in [0, 1] at each construction. The threshold neuron never reads its sd.
- `TrainingData` is defined in main.py, which is not part of this model. Its fields `i` (input vector) and `o` (target) are taken from their use in ga.py.
- `np.array(data)` in `output` and `np.array(...)` of a mean are both sequences of reals here.
- The payload of `sig_rbfn` is not modelled: `RbfnReady` carries no network. `Run` states instead that the network is unchanged.
- Selection, crossover, mutation, clipping and best-chromosome tracking do not exist in the source, so they are not modelled.
