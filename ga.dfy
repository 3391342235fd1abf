/**
 The genetic-algorithm driver of ga.py: the initial population `GA.__init__`
 draws, the fitting function, the evaluate-and-report loop of `GA.run`, and
 the abort flag `GA.stop` raises. Random draws are arbitrary values within
 their bounds. The signals the thread emits are a returned list of events.
 `stop()` comes from another thread: a predicate says, for each iteration,
 whether it has been called by the time that iteration checks the flag.
 The worker pool is a sequential map over one deep copy of the network per
 iteration, into which every individual is loaded in turn.
 */
module Ga {
  import opened Chromosome
  import opened Rbfn

  /** A training sample: an input vector and its expected output. */
  datatype TrainingData = TrainingData(i: seq<real>, o: real)

  // ---------------------------------------------------------------------
  // The default mean range (ga.py:30-32)

  /** Python's `min` of a non-empty list. */
  function SeqMin(v: seq<real>): (m: real)
    requires |v| > 0
    ensures forall j :: 0 <= j < |v| ==> m <= v[j]
    ensures exists j :: 0 <= j < |v| && m == v[j]
  {
    if |v| == 1 then v[0]
    else
      var rest := SeqMin(v[1..]);
      assert forall j :: 1 <= j < |v| ==> v[j] == v[1..][j - 1];
      if v[0] <= rest then v[0] else rest
  }

  /** Python's `max` of a non-empty list. */
  function SeqMax(v: seq<real>): (m: real)
    requires |v| > 0
    ensures forall j :: 0 <= j < |v| ==> v[j] <= m
    ensures exists j :: 0 <= j < |v| && m == v[j]
  {
    if |v| == 1 then v[0]
    else
      var rest := SeqMax(v[1..]);
      assert forall j :: 1 <= j < |v| ==> v[j] == v[1..][j - 1];
      if v[0] >= rest then v[0] else rest
  }

  /** Every sample has at least one input component. */
  predicate NonEmptyInputs(ds: seq<TrainingData>)
  {
    forall j :: 0 <= j < |ds| ==> |ds[j].i| > 0
  }

  /** `(min(min(d.i) for d in dataset), max(max(d.i) for d in dataset))`:
      the smallest interval holding every input component of the dataset. */
  function DefaultMeanRange(ds: seq<TrainingData>): (r: (real, real))
    requires |ds| > 0 && NonEmptyInputs(ds)
    ensures forall j, k :: 0 <= j < |ds| && 0 <= k < |ds[j].i| ==> r.0 <= ds[j].i[k] <= r.1
    ensures exists j, k :: 0 <= j < |ds| && 0 <= k < |ds[j].i| && ds[j].i[k] == r.0
    ensures exists j, k :: 0 <= j < |ds| && 0 <= k < |ds[j].i| && ds[j].i[k] == r.1
    ensures r.0 <= r.1
  {
    var mins := seq(|ds|, j requires 0 <= j < |ds| => SeqMin(ds[j].i));
    var maxs := seq(|ds|, j requires 0 <= j < |ds| => SeqMax(ds[j].i));
    RangeOfExtremes(ds, mins, maxs);
    (SeqMin(mins), SeqMax(maxs))
  }

  /** The least of the per-sample minima and the greatest of the per-sample
      maxima bound every component and are components themselves. */
  lemma RangeOfExtremes(ds: seq<TrainingData>, mins: seq<real>, maxs: seq<real>)
    requires |ds| > 0 && NonEmptyInputs(ds) && |mins| == |maxs| == |ds|
    requires forall j :: 0 <= j < |ds| ==> mins[j] == SeqMin(ds[j].i) && maxs[j] == SeqMax(ds[j].i)
    ensures var lo, hi := SeqMin(mins), SeqMax(maxs);
      (forall j, k :: 0 <= j < |ds| && 0 <= k < |ds[j].i| ==> lo <= ds[j].i[k] <= hi) &&
      (exists j, k :: 0 <= j < |ds| && 0 <= k < |ds[j].i| && ds[j].i[k] == lo) &&
      (exists j, k :: 0 <= j < |ds| && 0 <= k < |ds[j].i| && ds[j].i[k] == hi) &&
      lo <= hi
  {
    var lo, hi := SeqMin(mins), SeqMax(maxs);
    forall j, k | 0 <= j < |ds| && 0 <= k < |ds[j].i|
      ensures lo <= ds[j].i[k] <= hi
    {
      assert lo <= mins[j] && maxs[j] <= hi;
    }
    var j0 :| 0 <= j0 < |ds| && lo == mins[j0];
    var k0 :| 0 <= k0 < |ds[j0].i| && mins[j0] == ds[j0].i[k0];
    var j1 :| 0 <= j1 < |ds| && hi == maxs[j1];
    var k1 :| 0 <= k1 < |ds[j1].i| && maxs[j1] == ds[j1].i[k1];
    assert ds[0].i[0] <= hi;
  }

  /** The mean range `GA.__init__` uses: the given one, or the default when
      none is given. */
  function MeanRange(ds: seq<TrainingData>, meanRange: Option<(real, real)>): (real, real)
    requires meanRange.None? ==> |ds| > 0 && NonEmptyInputs(ds)
  {
    if meanRange.None? then DefaultMeanRange(ds) else meanRange.value
  }

  // ---------------------------------------------------------------------
  // The initial population (ga.py:37-45)

  /** p is a chromosome `GA.__init__` can draw for n neurons over inputs of
      dimension d: n values in [-1, 1], then (n-1)*d means in the mean range,
      then n-1 sds in [0, sd_max]. */
  predicate IsIndividual(p: seq<real>, n: nat, d: nat, meanRange: (real, real), sdMax: real)
    requires n >= 1
  {
    |p| == LayoutLength(n, d) &&
    AllWithin(p[..n], -1.0, 1.0) &&
    AllWithin(p[n .. n + (n - 1) * d], meanRange.0, meanRange.1) &&
    AllWithin(p[n + (n - 1) * d ..], 0.0, sdMax)
  }

  /** One individual of the loop of `GA.__init__` (ga.py:40-45). */
  method NewIndividual(n: nat, d: nat, meanRange: (real, real), sdMax: real) returns (indiv: seq<real>)
    requires n >= 1
    ensures IsIndividual(indiv, n, d, meanRange, sdMax)
  {
    var m := (n - 1) * d;
    var weights := UniformVector(-1.0, 1.0, n);
    var means := UniformVector(meanRange.0, meanRange.1, m);
    var sds := UniformVector(0.0, sdMax, n - 1);
    indiv := weights + means + sds;
    assert indiv[..n] == weights;
    assert indiv[n .. n + m] == means;
    assert indiv[n + m ..] == sds;
  }

  /** The population `GA.__init__` draws (ga.py:39-45): population_size
      individuals, none for a negative size. */
  method InitPopulation(size: int, n: nat, d: nat, meanRange: (real, real), sdMax: real) returns (population: seq<seq<real>>)
    requires n >= 1
    ensures |population| == if size < 0 then 0 else size
    ensures forall k :: 0 <= k < |population| ==> IsIndividual(population[k], n, d, meanRange, sdMax)
  {
    var count := if size < 0 then 0 else size;
    population := [];
    for j := 0 to count
      invariant |population| == j
      invariant forall k :: 0 <= k < j ==> IsIndividual(population[k], n, d, meanRange, sdMax)
    {
      var indiv := NewIndividual(n, d, meanRange, sdMax);
      population := population + [indiv];
    }
  }

  /** Every element of v lies in [a, b], and so does every element of a slice. */
  lemma AllWithinSlice(v: seq<real>, a: real, b: real, lo: int, hi: int)
    requires AllWithin(v, a, b) && 0 <= lo <= hi <= |v|
    ensures AllWithin(v[lo .. hi], a, b)
  {
    assert forall j :: 0 <= j < hi - lo ==> v[lo .. hi][j] == v[lo + j];
  }

  /** An individual decodes to a model over inputs of dimension d whose
      weights lie in [-1, 1], whose means lie in the mean range and whose sds
      lie in [0, sd_max]. */
  lemma IndividualDecodes(p: seq<real>, n: nat, d: nat, meanRange: (real, real), sdMax: real)
    requires n >= 2 && IsIndividual(p, n, d, meanRange, sdMax)
    ensures DataDim(n, |p|) == d
    ensures var q := Decode(n, p);
      HasDim(q, d) && Within(q.thresholdSw, -1.0, 1.0) && AllWithin(q.weights, -1.0, 1.0) &&
      AllWithin(q.sds, 0.0, sdMax) &&
      forall k :: 0 <= k < n - 1 ==> AllWithin(q.means[k], meanRange.0, meanRange.1)
  {
    DataDimRecovered(n, d);
    EncodeDecode(n, d, p);
    IndividualScalars(p, n, d, meanRange, sdMax);
    forall k | 0 <= k < n - 1
      ensures AllWithin(Decode(n, p).means[k], meanRange.0, meanRange.1)
    {
      IndividualMean(p, n, d, meanRange, sdMax, k);
    }
  }

  lemma IndividualScalars(p: seq<real>, n: nat, d: nat, meanRange: (real, real), sdMax: real)
    requires n >= 2 && IsIndividual(p, n, d, meanRange, sdMax)
    ensures var q := Decode(n, p);
      Within(q.thresholdSw, -1.0, 1.0) && AllWithin(q.weights, -1.0, 1.0) && AllWithin(q.sds, 0.0, sdMax)
  {
    var m := (n - 1) * d;
    DecodeScalars(n, p);
    assert p[..n][0] == p[0];
    assert p[1 .. n] == p[..n][1 .. n];
    AllWithinSlice(p[..n], -1.0, 1.0, 1, n);
    assert p[|p| - (n - 1) ..] == p[n + m ..];
  }

  lemma IndividualMean(p: seq<real>, n: nat, d: nat, meanRange: (real, real), sdMax: real, k: nat)
    requires n >= 2 && IsIndividual(p, n, d, meanRange, sdMax) && k < n - 1
    ensures AllWithin(Decode(n, p).means[k], meanRange.0, meanRange.1)
  {
    var m := (n - 1) * d;
    ChunkFits(k, n - 1, d);
    var lo := k * d;
    WithinBlock(p, n, m, lo, d, meanRange.0, meanRange.1);
    DataDimRecovered(n, d);
    DecodeMean(n, p, k);
    assert Decode(n, p).means[k] == p[n + lo .. n + lo + d];
  }

  /** A block of a segment whose values all lie in [a, b] has the same bound. */
  lemma WithinBlock(p: seq<real>, start: nat, m: nat, lo: nat, d: nat, a: real, b: real)
    requires start + m <= |p| && lo + d <= m && AllWithin(p[start .. start + m], a, b)
    ensures AllWithin(p[start + lo .. start + lo + d], a, b)
  {
    var block, segment := p[start + lo .. start + lo + d], p[start .. start + m];
    forall j | 0 <= j < d
      ensures Within(block[j], a, b)
    {
      assert block[j] == segment[lo + j];
    }
  }

  /** All samples have inputs of the same dimension as the first. */
  predicate SameDim(ds: seq<TrainingData>)
  {
    |ds| > 0 && forall j :: 0 <= j < |ds| ==> |ds[j].i| == |ds[0].i|
  }

  /** Model q can be asked for every sample's input without a shape error. */
  predicate FitsAll(q: Params, ds: seq<TrainingData>)
  {
    forall j :: 0 <= j < |ds| ==> Fits(q, ds[j].i)
  }

  /** A chromosome of the layout length for the dataset's dimension decodes to
      a model that fits every sample. */
  lemma LayoutFits(p: seq<real>, n: nat, ds: seq<TrainingData>)
    requires n >= 2 && SameDim(ds) && |p| == LayoutLength(n, |ds[0].i|)
    ensures FitsAll(Decode(n, p), ds)
  {
    EncodeDecode(n, |ds[0].i|, p);
  }

  // ---------------------------------------------------------------------
  // Fitting (ga.py:74-90)

  /** The residual of one sample: expected output minus the antinormalised
      network output. */
  function Residual(q: Params, s: TrainingData, exp: real -> real): real
    requires Fits(q, s.i)
  {
    s.o - Antinormalize(ModelOutput(q, s.i, exp))
  }

  /** `x ** 2`. */
  function Square(x: real): (r: real)
    ensures r >= 0.0
  {
    x * x
  }

  /** Only 0 squares to 0. */
  lemma SquareZero(x: real)
    ensures Square(x) == 0.0 <==> x == 0.0
  {
    if x != 0.0 {
      calc {
        Square(x);
      ==
        x * x;
      >
        0.0;
      }
    }
  }

  /** The sum of the squared residuals of the first k samples. */
  function SquaredErrors(q: Params, ds: seq<TrainingData>, exp: real -> real, k: nat): (r: real)
    requires FitsAll(q, ds) && k <= |ds|
    ensures r >= 0.0
  {
    if k == 0 then 0.0 else SquaredErrors(q, ds, exp, k - 1) + Square(Residual(q, ds[k - 1], exp))
  }

  /** `fitting_func` as a function of the decoded model: half the sum of the
      squared residuals over the dataset. */
  function Fitting(q: Params, ds: seq<TrainingData>, exp: real -> real): (e: real)
    requires FitsAll(q, ds)
    ensures e >= 0.0
  {
    0.5 * SquaredErrors(q, ds, exp, |ds|)
  }

  lemma {:induction false} SquaredErrorsZero(q: Params, ds: seq<TrainingData>, exp: real -> real, k: nat)
    requires FitsAll(q, ds) && k <= |ds|
    ensures SquaredErrors(q, ds, exp, k) == 0.0 <==> forall j :: 0 <= j < k ==> Residual(q, ds[j], exp) == 0.0
  {
    if k > 0 {
      SquaredErrorsZero(q, ds, exp, k - 1);
      SquareZero(Residual(q, ds[k - 1], exp));
    }
  }

  /** The error is zero exactly when the network reproduces every sample's
      output: the fittest possible individual. */
  lemma FittingZero(q: Params, ds: seq<TrainingData>, exp: real -> real)
    requires FitsAll(q, ds)
    ensures Fitting(q, ds, exp) == 0.0 <==>
            forall j :: 0 <= j < |ds| ==> Antinormalize(ModelOutput(q, ds[j].i, exp)) == ds[j].o
  {
    SquaredErrorsZero(q, ds, exp, |ds|);
  }

  /** Adding a sample adds half its squared residual to the error. */
  lemma FittingAppend(q: Params, ds: seq<TrainingData>, s: TrainingData, exp: real -> real)
    requires FitsAll(q, ds + [s])
    ensures FitsAll(q, ds) && Fits(q, s.i)
    ensures Fitting(q, ds + [s], exp) == Fitting(q, ds, exp) + 0.5 * Square(Residual(q, s, exp))
  {
    var ds' := ds + [s];
    assert forall j :: 0 <= j < |ds| ==> ds'[j] == ds[j];
    assert forall j :: 0 <= j < |ds| ==> Fits(q, ds'[j].i);
    assert ds'[|ds|] == s;
    SquaredErrorsPrefix(q, ds, ds', exp, |ds|);
  }

  lemma {:induction false} SquaredErrorsPrefix(q: Params, ds: seq<TrainingData>, ds': seq<TrainingData>, exp: real -> real, k: nat)
    requires FitsAll(q, ds) && FitsAll(q, ds') && k <= |ds| && k <= |ds'|
    requires forall j :: 0 <= j < k ==> ds[j] == ds'[j]
    ensures SquaredErrors(q, ds, exp, k) == SquaredErrors(q, ds', exp, k)
  {
    if k > 0 {
      SquaredErrorsPrefix(q, ds, ds', exp, k - 1);
    }
  }

  /** `fitting_func` (ga.py:74-90): load the individual into the network, then
      sum the halved squared errors of its antinormalised outputs. It returns
      the error of the decoded model, and leaves the network carrying it. */
  method FittingFunc(indiv: seq<real>, dataset: seq<TrainingData>, rbfn: Network, exp: real -> real) returns (e: real)
    requires rbfn.Valid() && |rbfn.neurons| >= 2 && |indiv| >= |rbfn.neurons|
    requires FitsAll(Decode(|rbfn.neurons|, indiv), dataset)
    modifies rbfn.Footprint()
    ensures rbfn.Valid() && rbfn.neurons == old(rbfn.neurons)
    ensures Carries(rbfn.States(), Decode(|rbfn.neurons|, indiv))
    ensures e == Fitting(Decode(|rbfn.neurons|, indiv), dataset, exp)
  {
    ghost var q := Decode(|rbfn.neurons|, indiv);
    rbfn.LoadModel(indiv);
    LoadCarries(old(rbfn.States()), indiv);
    var sum := SumSquaredErrors(dataset, rbfn, q, exp);
    e := 0.5 * sum;
  }

  /** The generator of `fitting_func` (ga.py:90): feed each sample to the
      network and add its squared error. */
  method SumSquaredErrors(dataset: seq<TrainingData>, rbfn: Network, ghost q: Params, exp: real -> real) returns (sum: real)
    requires rbfn.Valid() && Carries(rbfn.States(), q) && FitsAll(q, dataset)
    modifies rbfn.Footprint()
    ensures rbfn.Valid() && rbfn.neurons == old(rbfn.neurons) && Carries(rbfn.States(), q)
    ensures sum == SquaredErrors(q, dataset, exp, |dataset|)
  {
    sum := 0.0;
    for j := 0 to |dataset|
      invariant rbfn.Valid() && rbfn.neurons == old(rbfn.neurons) && Carries(rbfn.States(), q)
      invariant sum == SquaredErrors(q, dataset, exp, j)
    {
      var x := dataset[j].i;
      ghost var before := rbfn.States();
      CarriesAdmits(before, q, x);
      var y := rbfn.Output(x, true, exp);
      FedCarries(before, rbfn.States(), q, x, exp);
      sum := sum + Square(dataset[j].o - y);
    }
  }

  // ---------------------------------------------------------------------
  // Evaluation (ga.py:54-60)

  /** Every individual can be loaded into a network of n neurons and decodes
      to a model that fits every sample; an empty population is never
      loaded, whatever the network. */
  predicate Evaluable(population: seq<seq<real>>, n: nat, ds: seq<TrainingData>)
  {
    forall k :: 0 <= k < |population| ==> n >= 2 && |population[k]| >= n && FitsAll(Decode(n, population[k]), ds)
  }

  /** The errors of the individuals, in population order. */
  function Errors(population: seq<seq<real>>, n: nat, ds: seq<TrainingData>, exp: real -> real): (errs: seq<real>)
    requires Evaluable(population, n, ds)
    ensures |errs| == |population|
  {
    seq(|population|, k requires 0 <= k < |population| => Fitting(Decode(n, population[k]), ds, exp))
  }

  /** A population drawn by `GA.__init__` over a dataset of uniform dimension
      can be evaluated. */
  lemma PopulationEvaluable(population: seq<seq<real>>, n: nat, ds: seq<TrainingData>, meanRange: (real, real), sdMax: real)
    requires n >= 2 && SameDim(ds)
    requires forall k :: 0 <= k < |population| ==> IsIndividual(population[k], n, |ds[0].i|, meanRange, sdMax)
    ensures Evaluable(population, n, ds)
  {
    forall k | 0 <= k < |population|
      ensures n >= 2 && |population[k]| >= n && FitsAll(Decode(n, population[k]), ds)
    {
      LayoutFits(population[k], n, ds);
    }
  }

  /** `pool.map(partial(fitting_func, dataset=dataset, rbfn=deepcopy(rbfn)), population)`
      (ga.py:54-58), run sequentially: one deep copy of the network is made
      and every individual is loaded into it in turn. The network itself is
      left untouched, and what a copy held before an individual was loaded
      has no effect on that individual's error. */
  method Evaluate(dataset: seq<TrainingData>, rbfn: Network, population: seq<seq<real>>, exp: real -> real) returns (results: seq<real>)
    requires rbfn.Valid() && Evaluable(population, |rbfn.neurons|, dataset)
    ensures results == Errors(population, |rbfn.neurons|, dataset, exp)
  {
    var copy := new Network.Copy(rbfn);
    assert |copy.neurons| == |copy.States()| == |rbfn.States()| == |rbfn.neurons|;
    results := FitEach(population, dataset, copy, exp);
  }

  /** The individuals' errors, computed in population order on one network. */
  method FitEach(population: seq<seq<real>>, dataset: seq<TrainingData>, rbfn: Network, exp: real -> real) returns (results: seq<real>)
    requires rbfn.Valid() && Evaluable(population, |rbfn.neurons|, dataset)
    modifies rbfn.Footprint()
    ensures rbfn.Valid() && rbfn.neurons == old(rbfn.neurons)
    ensures results == Errors(population, |rbfn.neurons|, dataset, exp)
  {
    ghost var errs := Errors(population, |rbfn.neurons|, dataset, exp);
    results := [];
    for k := 0 to |population|
      invariant rbfn.Valid() && rbfn.neurons == old(rbfn.neurons)
      invariant results == errs[..k]
    {
      var e := FittingFunc(population[k], dataset, rbfn, exp);
      assert e == errs[k];
      PrefixStep(errs, k);
      results := results + [e];
    }
    assert errs[..|population|] == errs;
  }

  lemma PrefixStep<T>(s: seq<T>, k: nat)
    requires k < |s|
    ensures s[..k + 1] == s[..k] + [s[k]]
  {
  }

  // ---------------------------------------------------------------------
  // The signals (ga.py:52, 59-60, 63, 69-70)

  /** What the thread emits: the iteration number, one error per individual,
      the ready network, and a console message. */
  datatype Event = IterTime(i: int) | CurrentError(e: real) | RbfnReady | Console(message: string)

  /** The errors as `sig_current_error` events, in order. */
  function ErrorEvents(errs: seq<real>): seq<Event>
  {
    seq(|errs|, j requires 0 <= j < |errs| => CurrentError(errs[j]))
  }

  /** The events of iteration i when it finds errs: its number, then the errors. */
  function Iteration(i: int, errs: seq<real>): seq<Event>
  {
    [IterTime(i)] + ErrorEvents(errs)
  }

  /** The events of iterations 0 .. k-1 when every iteration finds errs. */
  function Trace(k: nat, errs: seq<real>): seq<Event>
  {
    if k == 0 then [] else Trace(k - 1, errs) + Iteration(k - 1, errs)
  }

  /** The iteration numbers among the events, in order. */
  function IterNumbers(evs: seq<Event>): seq<int>
  {
    if |evs| == 0 then []
    else IterNumbers(evs[..|evs| - 1]) + (if evs[|evs| - 1].IterTime? then [evs[|evs| - 1].i] else [])
  }

  /** The errors among the events, in order. */
  function ErrorValues(evs: seq<Event>): seq<real>
  {
    if |evs| == 0 then []
    else ErrorValues(evs[..|evs| - 1]) + (if evs[|evs| - 1].CurrentError? then [evs[|evs| - 1].e] else [])
  }

  /** errs repeated k times. */
  function Repeat(errs: seq<real>, k: nat): seq<real>
  {
    if k == 0 then [] else Repeat(errs, k - 1) + errs
  }

  lemma {:induction false} IterNumbersAppend(a: seq<Event>, b: seq<Event>)
    ensures IterNumbers(a + b) == IterNumbers(a) + IterNumbers(b)
    decreases |b|
  {
    if |b| > 0 {
      var b' := b[..|b| - 1];
      assert (a + b)[..|a + b| - 1] == a + b';
      IterNumbersAppend(a, b');
    } else {
      assert a + b == a;
    }
  }

  lemma {:induction false} ErrorValuesAppend(a: seq<Event>, b: seq<Event>)
    ensures ErrorValues(a + b) == ErrorValues(a) + ErrorValues(b)
    decreases |b|
  {
    if |b| > 0 {
      var b' := b[..|b| - 1];
      assert (a + b)[..|a + b| - 1] == a + b';
      ErrorValuesAppend(a, b');
    } else {
      assert a + b == a;
    }
  }

  lemma {:induction false} ErrorEventsValues(errs: seq<real>)
    ensures IterNumbers(ErrorEvents(errs)) == []
    ensures ErrorValues(ErrorEvents(errs)) == errs
    decreases |errs|
  {
    if |errs| > 0 {
      var errs' := errs[..|errs| - 1];
      assert ErrorEvents(errs)[..|errs| - 1] == ErrorEvents(errs');
      ErrorEventsValues(errs');
    }
  }

  /** The events one iteration appends hold its number and then the errors. */
  lemma IterationContents(i: int, errs: seq<real>)
    ensures IterNumbers(Iteration(i, errs)) == [i]
    ensures ErrorValues(Iteration(i, errs)) == errs
  {
    ErrorEventsValues(errs);
    IterNumbersAppend([IterTime(i)], ErrorEvents(errs));
    ErrorValuesAppend([IterTime(i)], ErrorEvents(errs));
    assert [IterTime(i)][..0] == [];
  }

  /** The numbers 0 .. k-1 in order. */
  function Range(k: nat): (r: seq<int>)
    ensures |r| == k && forall i :: 0 <= i < k ==> r[i] == i
  {
    if k == 0 then [] else Range(k - 1) + [k - 1]
  }

  /** Run reports k * (|errs| + 1) events over k iterations. */
  lemma {:induction false} TraceLength(k: nat, errs: seq<real>)
    ensures |Trace(k, errs)| == k * (|errs| + 1)
  {
    if k > 0 {
      TraceLength(k - 1, errs);
    }
  }

  /** Run reports the iterations in order: 0, 1, ..., k-1. */
  lemma {:induction false} TraceNumbers(k: nat, errs: seq<real>)
    ensures IterNumbers(Trace(k, errs)) == Range(k)
  {
    if k > 0 {
      TraceNumbers(k - 1, errs);
      IterationContents(k - 1, errs);
      IterNumbersAppend(Trace(k - 1, errs), Iteration(k - 1, errs));
    }
  }

  /** After each iteration number come the errors of the whole population, in
      population order. */
  lemma {:induction false} TraceErrors(k: nat, errs: seq<real>)
    ensures ErrorValues(Trace(k, errs)) == Repeat(errs, k)
  {
    if k > 0 {
      TraceErrors(k - 1, errs);
      IterationContents(k - 1, errs);
      ErrorValuesAppend(Trace(k - 1, errs), Iteration(k - 1, errs));
    }
  }

  // ---------------------------------------------------------------------
  // Stopping

  /** The index of the first iteration at or after i that is asked to stop,
      or total when none is: the iterations `run` performs from i on. */
  function Performed(i: nat, total: nat, stopRequested: nat -> bool): (k: nat)
    requires i <= total
    ensures i <= k <= total
    ensures forall j :: i <= j < k ==> !stopRequested(j)
    ensures k < total ==> stopRequested(k)
    decreases total - i
  {
    if i == total || stopRequested(i) then i else Performed(i + 1, total, stopRequested)
  }

  /** The iteration count Performed names is the only one with its properties. */
  lemma PerformedUnique(total: nat, stopRequested: nat -> bool, k: nat)
    requires k <= total && (forall j :: 0 <= j < k ==> !stopRequested(j))
    requires k < total ==> stopRequested(k)
    ensures Performed(0, total, stopRequested) == k
  {
    var k' := Performed(0, total, stopRequested);
    if k' < k {
      assert false;
    } else if k < k' {
      assert false;
    }
  }

  /** The message `stop` prints to the console while the thread is running. */
  const StopWarning := "WARNING: User interrupts running thread. The thread will be stop in next iteration."

  // ---------------------------------------------------------------------
  // The thread

  /** `GA` (ga.py:17-90). */
  class GA {
    var iterTimes: int
    var populationSize: int
    var pc: real
    var pm: real
    var rbfn: Network
    var dataset: seq<TrainingData>
    var abort: bool
    var population: seq<seq<real>>

    /** `run` can evaluate the population: the network is valid, and every
        individual can be loaded into it and fits every sample. */
    ghost predicate Ready()
      reads this, rbfn, rbfn.Footprint()
    {
      rbfn.Valid() && Evaluable(population, |rbfn.neurons|, dataset)
    }

    /** `GA.__init__` (ga.py:20-45): the mean range defaults to the range of
        the inputs; the population holds population_size individuals drawn
        for the network's neuron count and the first sample's dimension. */
    constructor (iterTimes: int, populationSize: int, pc: real, pm: real, rbfn: Network,
                 dataset: seq<TrainingData>, meanRange: Option<(real, real)>, sdMax: real)
      requires |dataset| > 0 && |rbfn.neurons| >= 1
      requires meanRange.None? ==> NonEmptyInputs(dataset)
      ensures this.iterTimes == iterTimes && this.populationSize == populationSize
      ensures this.pc == pc && this.pm == pm && this.rbfn == rbfn && this.dataset == dataset
      ensures !abort
      ensures |population| == if populationSize < 0 then 0 else populationSize
      ensures forall k :: 0 <= k < |population| ==>
                IsIndividual(population[k], |rbfn.neurons|, |dataset[0].i|, MeanRange(dataset, meanRange), sdMax)
    {
      var mr := if meanRange.None? then DefaultMeanRange(dataset) else meanRange.value;
      this.iterTimes := iterTimes;
      this.populationSize := populationSize;
      this.pc := pc;
      this.pm := pm;
      this.rbfn := rbfn;
      this.dataset := dataset;
      this.abort := false;
      var dataDim := |dataset[0].i|;
      var nneuron := |rbfn.neurons|;
      var individuals := InitPopulation(populationSize, nneuron, dataDim, mr, sdMax);
      this.population := individuals;
    }

    /** A freshly constructed GA over a valid network is Ready when its
        population is empty, or when the network has a Gaussian neuron and
        the dataset is of uniform dimension. */
    lemma ConstructedReady(meanRange: (real, real), sdMax: real)
      requires rbfn.Valid() && |dataset| > 0
      requires |population| > 0 ==> |rbfn.neurons| >= 2 && SameDim(dataset)
      requires forall k :: 0 <= k < |population| ==>
                 IsIndividual(population[k], |rbfn.neurons|, |dataset[0].i|, meanRange, sdMax)
      ensures Ready()
    {
      if |population| > 0 {
        PopulationEvaluable(population, |rbfn.neurons|, dataset, meanRange, sdMax);
      }
    }

    /** `GA.stop` (ga.py:65-71): warn on the console when running, and raise
        the abort flag. */
    method Stop(isRunning: bool) returns (events: seq<Event>)
      modifies this
      ensures abort
      ensures events == if isRunning then [Console(StopWarning)] else []
      ensures iterTimes == old(iterTimes) && populationSize == old(populationSize) && pc == old(pc) && pm == old(pm)
      ensures rbfn == old(rbfn) && dataset == old(dataset) && population == old(population)
    {
      events := [];
      if isRunning {
        events := [Console(StopWarning)];
      }
      abort := true;
    }

    /** One iteration of `run` past the abort check (ga.py:52-60): report the
        iteration number, then the error of every individual. */
    method RunIteration(i: int, exp: real -> real) returns (events: seq<Event>)
      requires Ready()
      ensures events == Iteration(i, Errors(population, |rbfn.neurons|, dataset, exp))
    {
      events := [IterTime(i)];
      var results := Evaluate(dataset, rbfn, population, exp);
      events := events + ErrorEvents(results);
    }

    /** `GA.run` (ga.py:47-63): up to iter_times iterations, each checking the
        abort flag, reporting its number and the error of every individual;
        then the network is reported ready. Iteration i sees the flag raised
        when it was already up or when stopRequested(i). The population is
        never changed, so every iteration finds the same errors. Only a run
        that reaches an evaluation needs the population to be evaluable. */
    method Run(exp: real -> real, stopRequested: nat -> bool) returns (events: seq<Event>)
      requires !abort && iterTimes > 0 && !stopRequested(0) ==> Ready()
      modifies this
      ensures iterTimes == old(iterTimes) && populationSize == old(populationSize) && pc == old(pc) && pm == old(pm)
      ensures rbfn == old(rbfn) && dataset == old(dataset) && population == old(population)
      ensures old(Ready()) ==> Ready()
      ensures var total := if iterTimes < 0 then 0 else iterTimes;
              var k := if old(abort) then 0 else Performed(0, total, stopRequested);
              (k == 0 ==> events == [RbfnReady]) &&
              (k > 0 ==> events == Trace(k, Errors(population, |rbfn.neurons|, dataset, exp)) + [RbfnReady]) &&
              (abort <==> old(abort) || k < total)
    {
      var total := if iterTimes < 0 then 0 else iterTimes;
      ghost var ready := Ready();
      ghost var errs: seq<real> := [];
      if ready {
        errs := Errors(population, |rbfn.neurons|, dataset, exp);
      }
      ghost var wasAborted := abort;
      ghost var evaluates := !wasAborted && total > 0 && !stopRequested(0);
      events := [];
      var i := 0;
      while i < iterTimes
        invariant 0 <= i <= total
        invariant iterTimes == old(iterTimes) && populationSize == old(populationSize) && pc == old(pc) && pm == old(pm)
        invariant rbfn == old(rbfn) && dataset == old(dataset) && population == old(population)
        invariant ready ==> Ready()
        invariant evaluates ==> ready
        invariant wasAborted ==> i == 0 && abort
        invariant !wasAborted ==> !abort && i <= Performed(0, total, stopRequested)
        invariant events == Trace(i, errs)
      {
        if stopRequested(i) {
          abort := true;
        }
        if abort {
          break;
        }
        assert evaluates;
        var step := RunIteration(i, exp);
        assert step == Iteration(i, errs);
        events := events + step;
        assert events == Trace(i + 1, errs);
        i := i + 1;
      }
      events := events + [RbfnReady];
    }
  }
}
