/**
 The radial basis function network of rbfn.py: one threshold neuron at
 index 0 followed by Gaussian neurons. Neurons are objects whose fields the
 network overwrites in place (`load_model`) and whose output is recomputed
 on every input (`input_data`). Arithmetic is over `real`; the exponential
 is a parameter `exp`, and the facts the model needs about it are stated by
 `IsExp`.
 */
module Rbfn {
  import opened Chromosome

  datatype Option<T> = None | Some(value: T)

  /** x lies between a and b, in whichever order they are given: where
      `random.uniform(a, b)` and `numpy.random.uniform(a, b)` put their draws. */
  predicate Within(x: real, a: real, b: real)
  {
    (a <= b && a <= x <= b) || (b < a && b <= x <= a)
  }

  predicate AllWithin(v: seq<real>, a: real, b: real)
  {
    forall j :: 0 <= j < |v| ==> Within(v[j], a, b)
  }

  /** A draw of `random.uniform(a, b)`: any value between the bounds. */
  method Uniform(a: real, b: real) returns (x: real)
    ensures Within(x, a, b)
  {
    assert Within(a, a, b);
    x :| Within(x, a, b);
  }

  /** A draw of `numpy.random.uniform(a, b, size)`: size values between the bounds. */
  method UniformVector(a: real, b: real, size: nat) returns (v: seq<real>)
    ensures |v| == size && AllWithin(v, a, b)
  {
    ghost var w := seq(size, _ => a);
    assert |w| == size && AllWithin(w, a, b);
    v :| |v| == size && AllWithin(v, a, b);
  }

  /** What the model relies on about `math.exp`: it is positive, and at most 1
      on non-positive arguments. */
  ghost predicate IsExp(exp: real -> real)
  {
    forall t :: exp(t) > 0.0 && (t <= 0.0 ==> exp(t) <= 1.0)
  }

  // ---------------------------------------------------------------------
  // Antinormalisation (rbfn.py:47-52)

  /** `RBFN.__antinormalize`: maps a normalised output onto [-40, 40]. */
  function Antinormalize(v: real): (r: real)
    ensures -40.0 <= r <= 40.0
  {
    if v < -1.0 then -40.0
    else if v > 1.0 then 40.0
    else v * 40.0
  }

  /** v clamped to [-1, 1]: the reference definition Antinormalize scales. */
  function Clamp(v: real): (r: real)
    ensures -1.0 <= r <= 1.0
    ensures -1.0 <= v <= 1.0 <==> r == v
  {
    if v < -1.0 then -1.0 else if v > 1.0 then 1.0 else v
  }

  /** Antinormalisation is 40 times the input clamped to [-1, 1]: saturating
      at -40 below -1, at 40 above 1, linear in between. */
  lemma AntinormalizeClamps(v: real)
    ensures Antinormalize(v) == 40.0 * Clamp(v)
    ensures v < -1.0 ==> Antinormalize(v) == -40.0
    ensures v > 1.0 ==> Antinormalize(v) == 40.0
    ensures -1.0 <= v <= 1.0 ==> Antinormalize(v) == 40.0 * v
  {
  }

  lemma AntinormalizeMonotone(u: real, v: real)
    requires u <= v
    ensures Antinormalize(u) <= Antinormalize(v)
  {
  }

  // ---------------------------------------------------------------------
  // The Gaussian kernel (rbfn.py:98-102)

  /** `(x - m).dot(x - m)`: the squared Euclidean distance. */
  function SqDist(x: seq<real>, m: seq<real>): (r: real)
    requires |x| == |m|
    ensures r >= 0.0
    ensures x == m ==> r == 0.0
  {
    if |x| == 0 then 0.0
    else (x[0] - m[0]) * (x[0] - m[0]) + SqDist(x[1..], m[1..])
  }

  /** The exponent of the Gaussian kernel, -d2 / (2 sd^2), written as
      successive divisions by sd (equal over the reals). */
  function KernelExponent(d2: real, sd: real): (t: real)
    requires sd > 0.0
    ensures d2 >= 0.0 ==> t <= 0.0
    ensures d2 == 0.0 ==> t == 0.0
  {
    -(d2 / sd / sd) / 2.0
  }

  /** `Neuron.__get_output`: 0 when sd <= 0, otherwise
      sw * exp(-|x - mean|^2 / (2 sd^2)). The dimensions only have to agree
      when the dot product is computed. */
  function GetOutput(sw: real, sd: real, mean: seq<real>, x: seq<real>, exp: real -> real): (r: real)
    requires sd > 0.0 ==> |x| == |mean|
    ensures sd <= 0.0 ==> r == 0.0
    ensures sw == 0.0 ==> r == 0.0
  {
    if sd <= 0.0 then 0.0
    else sw * exp(KernelExponent(SqDist(x, mean), sd))
  }

  /** r = sw * e for a factor e in (0, 1]: r lies between 0 and sw and has
      sw's sign. */
  lemma ScaleBounded(sw: real, e: real, r: real)
    requires 0.0 < e <= 1.0 && r == sw * e
    ensures (sw >= 0.0 ==> 0.0 <= r <= sw) && (sw <= 0.0 ==> sw <= r <= 0.0)
    ensures sw > 0.0 ==> r > 0.0
    ensures sw < 0.0 ==> r < 0.0
  {
  }

  /** A Gaussian neuron's output never exceeds its weight in magnitude and
      has the weight's sign; at its mean it is exactly its weight times exp(0). */
  lemma GetOutputBounded(sw: real, sd: real, mean: seq<real>, x: seq<real>, exp: real -> real)
    requires IsExp(exp)
    requires sd > 0.0 ==> |x| == |mean|
    ensures var r := GetOutput(sw, sd, mean, x, exp);
      (sw >= 0.0 ==> 0.0 <= r <= sw) && (sw <= 0.0 ==> sw <= r <= 0.0)
    ensures sd > 0.0 && sw > 0.0 ==> GetOutput(sw, sd, mean, x, exp) > 0.0
    ensures sd > 0.0 && sw < 0.0 ==> GetOutput(sw, sd, mean, x, exp) < 0.0
    ensures sd > 0.0 && x == mean ==> GetOutput(sw, sd, mean, x, exp) == sw * exp(0.0)
  {
    if sd > 0.0 {
      var t := KernelExponent(SqDist(x, mean), sd);
      assert 0.0 < exp(t) <= 1.0;
      ScaleBounded(sw, exp(t), GetOutput(sw, sd, mean, x, exp));
    }
  }

  // ---------------------------------------------------------------------
  // Neuron state as a value

  /** Every field of a `Neuron`: `meanRange` bounds the lazy random mean,
      `inputData` is the last input and `output` the last output. */
  datatype NeuronState = NeuronState(
    isThreshold: bool, sw: real, mean: Option<seq<real>>, sd: real,
    meanRange: (real, real), inputData: Option<seq<real>>, output: Option<real>)

  /** The input x can be fed to a neuron in state u without a shape error:
      only a Gaussian neuron with a set mean and a positive sd compares
      dimensions. */
  predicate Admits(u: NeuronState, x: seq<real>)
  {
    !u.isThreshold && u.mean.Some? && u.sd > 0.0 ==> |u.mean.value| == |x|
  }

  /** v is a state `Neuron.input_data(x)` can leave behind from u
      (rbfn.py:90-96): the input is recorded; a threshold neuron outputs its
      weight; a Gaussian neuron keeps a set mean, or else gets a random one of
      the input's dimension within its mean range, and outputs its kernel. */
  predicate Fed(u: NeuronState, v: NeuronState, x: seq<real>, exp: real -> real)
  {
    v.isThreshold == u.isThreshold && v.sw == u.sw && v.sd == u.sd &&
    v.meanRange == u.meanRange && v.inputData == Some(x) &&
    (u.isThreshold ==> v.mean == u.mean && v.output == Some(u.sw)) &&
    (!u.isThreshold ==>
       v.mean.Some? &&
       (u.mean.Some? ==> v.mean == u.mean) &&
       (u.mean.None? ==> |v.mean.value| == |x| && AllWithin(v.mean.value, u.meanRange.0, u.meanRange.1)) &&
       (v.sd > 0.0 ==> |v.mean.value| == |x|) &&
       v.output == Some(GetOutput(v.sw, v.sd, v.mean.value, x, exp)))
  }

  /** vs is a state feeding x to every neuron of us can leave behind. */
  predicate Feeds(us: seq<NeuronState>, vs: seq<NeuronState>, x: seq<real>, exp: real -> real)
  {
    |vs| == |us| && forall k :: 0 <= k < |us| ==> Fed(us[k], vs[k], x, exp)
  }

  /** Once a neuron's mean is set (or it is the threshold), feeding it is
      deterministic. */
  lemma FedDeterministic(u: NeuronState, v1: NeuronState, v2: NeuronState, x: seq<real>, exp: real -> real)
    requires u.isThreshold || u.mean.Some?
    requires Fed(u, v1, x, exp) && Fed(u, v2, x, exp)
    ensures v1 == v2
  {
  }

  /** A threshold neuron's output is its weight, whatever the input. */
  lemma ThresholdOutput(u: NeuronState, v: NeuronState, x: seq<real>, exp: real -> real)
    requires u.isThreshold && Fed(u, v, x, exp)
    ensures v.output == Some(u.sw)
  {
  }

  /** A Gaussian neuron with sd <= 0 outputs exactly 0. */
  lemma DegenerateOutput(u: NeuronState, v: NeuronState, x: seq<real>, exp: real -> real)
    requires !u.isThreshold && u.sd <= 0.0 && Fed(u, v, x, exp)
    ensures v.output == Some(0.0)
  {
  }

  // ---------------------------------------------------------------------
  // Network state as a value

  /** Index 0 is the threshold neuron and no other neuron is one. */
  predicate ThresholdFirst(us: seq<NeuronState>)
  {
    |us| >= 1 && us[0].isThreshold && forall k :: 1 <= k < |us| ==> !us[k].isThreshold
  }

  /** `load_model` on the network's neuron states (rbfn.py:35-44): neuron 0
      takes the decoded threshold weight, and Gaussian neuron k takes weight,
      mean and sd k-1 of `Decode(n, params)`; nothing else changes. */
  function Load(us: seq<NeuronState>, p: seq<real>): (r: seq<NeuronState>)
    requires |us| >= 2 && |p| >= |us|
    ensures |r| == |us|
  {
    var n, q := |us|, Decode(|us|, p);
    seq(n, k requires 0 <= k < n =>
      if k == 0 then us[0].(sw := q.thresholdSw)
      else us[k].(sw := q.weights[k - 1], mean := Some(q.means[k - 1]), sd := q.sds[k - 1]))
  }

  /** States vs that differ from us as `load_model`'s loop leaves them are
      Load(us, p). */
  lemma LoadFromSlices(us: seq<NeuronState>, vs: seq<NeuronState>, p: seq<real>)
    requires |us| >= 2 && |p| >= |us| && |vs| == |us|
    requires vs[0] == us[0].(sw := p[0])
    requires var n := |us|;
      var weights, means, sds := PySlice(p, 1, n), PySlice(p, n, -(n - 1)), PySlice(p, -(n - 1), |p|);
      |weights| == |sds| == n - 1 &&
      forall k :: 1 <= k < n ==>
        vs[k] == us[k].(sw := weights[k - 1], mean := Some(Chunk(means, k - 1, DataDim(n, |p|))), sd := sds[k - 1])
    ensures vs == Load(us, p)
  {
    var r := Load(us, p);
    forall k | 0 <= k < |us|
      ensures vs[k] == r[k]
    {
    }
  }

  /** `load_model` changes no neuron's kind, mean range, last input or last
      output, and keeps the neuron count. */
  lemma LoadKeepsShape(us: seq<NeuronState>, p: seq<real>)
    requires |us| >= 2 && |p| >= |us|
    ensures |Load(us, p)| == |us|
    ensures forall k :: 0 <= k < |us| ==>
              var u, v := us[k], Load(us, p)[k];
              v.isThreshold == u.isThreshold && v.meanRange == u.meanRange &&
              v.inputData == u.inputData && v.output == u.output
    ensures ThresholdFirst(us) ==> ThresholdFirst(Load(us, p))
  {
  }

  /** Loading the same vector twice leaves the state loading it once does. */
  lemma LoadIdempotent(us: seq<NeuronState>, p: seq<real>)
    requires |us| >= 2 && |p| >= |us|
    ensures Load(Load(us, p), p) == Load(us, p)
  {
    var r := Load(us, p);
    var r2 := Load(r, p);
    assert forall k :: 0 <= k < |us| ==> r2[k] == r[k];
  }

  /** The neuron states carry the decoded parameters q: the threshold neuron
      first, then one Gaussian neuron per weight, mean and sd of q. */
  predicate Carries(us: seq<NeuronState>, q: Params)
  {
    Shaped(q) && |us| == |q.weights| + 1 && ThresholdFirst(us) &&
    us[0].sw == q.thresholdSw &&
    forall k :: 1 <= k < |us| ==>
      us[k].sw == q.weights[k - 1] && us[k].mean == Some(q.means[k - 1]) && us[k].sd == q.sds[k - 1]
  }

  /** After `load_model(p)` the network carries `Decode(n, p)`, whatever it
      held before. */
  lemma LoadCarries(us: seq<NeuronState>, p: seq<real>)
    requires ThresholdFirst(us) && |us| >= 2 && |p| >= |us|
    ensures Carries(Load(us, p), Decode(|us|, p))
  {
    var n := |us|;
    var r, q := Load(us, p), Decode(n, p);
    forall k | 1 <= k < n
      ensures r[k].sw == q.weights[k - 1] && r[k].mean == Some(q.means[k - 1]) && r[k].sd == q.sds[k - 1]
    {
    }
  }

  /** Where each neuron's scalars come from after `load_model(p)`: the
      threshold weight is `p[0]`, Gaussian neuron k has weight `p[k]` and sd
      `p[|p| - (n-1) + (k-1)]`. */
  lemma LoadScalars(us: seq<NeuronState>, p: seq<real>)
    requires ThresholdFirst(us) && |us| >= 2 && |p| >= |us|
    ensures Load(us, p)[0].sw == p[0]
    ensures forall k :: 1 <= k < |us| ==>
              Load(us, p)[k].sw == p[k] && Load(us, p)[k].sd == p[|p| - (|us| - 1) + (k - 1)]
  {
    var n := |us|;
    LoadCarries(us, p);
    DecodeScalars(n, p);
    var q := Decode(n, p);
    forall k | 1 <= k < n
      ensures Load(us, p)[k].sw == p[k] && Load(us, p)[k].sd == p[|p| - (n - 1) + (k - 1)]
    {
      assert q.weights[k - 1] == p[1 .. n][k - 1];
      assert q.sds[k - 1] == p[|p| - (n - 1) ..][k - 1];
    }
  }

  /** After `load_model(p)` the Gaussian neuron at index j+1 has mean
      `p[n + j*d : n + (j+1)*d]`, d the recovered dimension. */
  lemma LoadMeanAt(us: seq<NeuronState>, p: seq<real>, j: nat)
    requires ThresholdFirst(us) && |us| >= 2 && |p| >= |us| && j < |us| - 1
    ensures var n, d := |us|, DataDim(|us|, |p|);
      0 <= j * d <= (j + 1) * d && n + (j + 1) * d <= |p| &&
      Load(us, p)[j + 1].mean == Some(p[n + j * d .. n + (j + 1) * d])
  {
    var n := |us|;
    var r, q := Load(us, p), Decode(n, p);
    DecodeMean(n, p, j);
    var d := DataDim(n, |p|);
    var mean := p[n + j * d .. n + (j + 1) * d];
    assert q.means[j] == mean;
    assert r[j + 1].mean == Some(q.means[j]);
  }

  /** No shape error can occur: every Gaussian neuron with a positive sd has
      a mean of the input's dimension. */
  predicate Fits(q: Params, x: seq<real>)
  {
    Shaped(q) && forall k :: 0 <= k < |q.sds| && q.sds[k] > 0.0 ==> |q.means[k]| == |x|
  }

  /** The sum of the first k Gaussian neurons' outputs of model q. */
  function KernelSum(q: Params, x: seq<real>, exp: real -> real, k: nat): real
    requires Fits(q, x) && k <= |q.weights|
  {
    if k == 0 then 0.0
    else KernelSum(q, x, exp, k - 1) + GetOutput(q.weights[k - 1], q.sds[k - 1], q.means[k - 1], x, exp)
  }

  /** The network output of model q on x: an independent reference for
      `RBFN.output`, written over the decoded parameters. */
  function ModelOutput(q: Params, x: seq<real>, exp: real -> real): real
    requires Fits(q, x)
  {
    q.thresholdSw + KernelSum(q, x, exp, |q.weights|)
  }

  /** `sum(n.output for n in self.neurons)` over the first k neurons. */
  function OutputSum(us: seq<NeuronState>, k: nat): real
    requires k <= |us| && forall j :: 0 <= j < k ==> us[j].output.Some?
  {
    if k == 0 then 0.0 else OutputSum(us, k - 1) + us[k - 1].output.value
  }

  /** All neurons have an output. */
  predicate HasOutputs(us: seq<NeuronState>)
  {
    forall j :: 0 <= j < |us| ==> us[j].output.Some?
  }

  /** Feeding x to every neuron of a network that carries q gives again a
      network that carries q, whose summed output is ModelOutput(q, x): the
      random mean is never drawn. */
  lemma {:induction false} FedCarries(us: seq<NeuronState>, vs: seq<NeuronState>, q: Params, x: seq<real>, exp: real -> real)
    requires Carries(us, q) && Fits(q, x) && |vs| == |us|
    requires forall k :: 0 <= k < |us| ==> Fed(us[k], vs[k], x, exp)
    ensures Carries(vs, q) && HasOutputs(vs)
    ensures OutputSum(vs, |vs|) == ModelOutput(q, x, exp)
  {
    forall k | 1 <= k < |vs|
      ensures vs[k].output == Some(GetOutput(q.weights[k - 1], q.sds[k - 1], q.means[k - 1], x, exp))
    {
    }
    SumMatches(vs, q, x, exp, |q.weights|);
  }

  /** A network that carries q admits every input q fits. */
  lemma CarriesAdmits(us: seq<NeuronState>, q: Params, x: seq<real>)
    requires Carries(us, q) && Fits(q, x)
    ensures forall k :: 0 <= k < |us| ==> Admits(us[k], x)
  {
    forall k | 1 <= k < |us|
      ensures Admits(us[k], x)
    {
      assert us[k].sd == q.sds[k - 1] && us[k].mean == Some(q.means[k - 1]);
    }
  }

  lemma {:induction false} SumMatches(vs: seq<NeuronState>, q: Params, x: seq<real>, exp: real -> real, k: nat)
    requires Fits(q, x) && |vs| == |q.weights| + 1 && k <= |q.weights|
    requires HasOutputs(vs) && vs[0].output == Some(q.thresholdSw)
    requires forall j :: 1 <= j < |vs| ==>
               vs[j].output == Some(GetOutput(q.weights[j - 1], q.sds[j - 1], q.means[j - 1], x, exp))
    ensures OutputSum(vs, k + 1) == q.thresholdSw + KernelSum(q, x, exp, k)
  {
    if k > 0 {
      SumMatches(vs, q, x, exp, k - 1);
    }
  }

  // ---------------------------------------------------------------------
  // Objects

  /** `Neuron` (rbfn.py:55-102). */
  class Neuron {
    var meanRange: (real, real)
    var mean: Option<seq<real>>
    var sd: real
    var isThreshold: bool
    var sw: real
    var inputData: Option<seq<real>>
    var output: Option<real>

    function State(): NeuronState
      reads this
    {
      NeuronState(isThreshold, sw, mean, sd, meanRange, inputData, output)
    }

    /** `Neuron.__init__` (rbfn.py:56-81): the weight is drawn from [-1, 1];
        a missing mean range defaults to (-1, 1). */
    constructor (mean: Option<seq<real>>, sd: real, isThreshold: bool, meanRange: Option<(real, real)>)
      ensures this.meanRange == (if meanRange.None? then (-1.0, 1.0) else meanRange.value)
      ensures this.mean == mean && this.sd == sd && this.isThreshold == isThreshold
      ensures Within(sw, -1.0, 1.0)
      ensures inputData.None? && output.None?
    {
      this.meanRange := if meanRange.None? then (-1.0, 1.0) else meanRange.value;
      this.mean := mean;
      this.sd := sd;
      this.isThreshold := isThreshold;
      var w := Uniform(-1.0, 1.0);
      this.sw := w;
      this.inputData := None;
      this.output := None;
    }

    /** A neuron in state u: the copy `copy.deepcopy` makes of a neuron. */
    constructor Copy(u: NeuronState)
      ensures State() == u
    {
      meanRange := u.meanRange;
      mean := u.mean;
      sd := u.sd;
      isThreshold := u.isThreshold;
      sw := u.sw;
      inputData := u.inputData;
      output := u.output;
    }

    /** The three assignments `load_model` makes to each Gaussian neuron
        (rbfn.py:42-44). */
    method SetParameters(sw: real, mean: seq<real>, sd: real)
      modifies this
      ensures State() == old(State()).(sw := sw, mean := Some(mean), sd := sd)
    {
      this.sw := sw;
      this.mean := Some(mean);
      this.sd := sd;
    }

    /** `Neuron.input_data` (rbfn.py:83-96). */
    method InputData(x: seq<real>, exp: real -> real)
      requires Admits(State(), x)
      modifies this
      ensures Fed(old(State()), State(), x, exp)
    {
      inputData := Some(x);
      if isThreshold {
        output := Some(sw);
      } else {
        if mean.None? {
          var m := UniformVector(meanRange.0, meanRange.1, |x|);
          mean := Some(m);
        }
        output := Some(GetOutput(sw, sd, mean.value, x, exp));
      }
    }
  }

  /** `RBFN` (rbfn.py:7-52). */
  class Network {
    var neurons: seq<Neuron>

    ghost function Footprint(): set<object>
      reads this
    {
      set k | 0 <= k < |neurons| :: neurons[k]
    }

    /** The neurons are distinct objects, index 0 is the threshold neuron and
        no other neuron is one. */
    ghost predicate Valid()
      reads this, Footprint()
    {
      (forall i, j :: 0 <= i < j < |neurons| ==> neurons[i] != neurons[j]) &&
      ThresholdFirst(States())
    }

    ghost function States(): (s: seq<NeuronState>)
      reads this, Footprint()
      ensures |s| == |neurons|
      ensures forall k :: 0 <= k < |neurons| ==> s[k] == neurons[k].State()
    {
      seq(|neurons|, k requires 0 <= k < |neurons| reads this, Footprint() => neurons[k].State())
    }

    /** `RBFN.__init__` (rbfn.py:8-11): nneuron Gaussian neurons with sd drawn
        from [0, sd_max] and no mean yet, behind one threshold neuron. The
        threshold neuron's sd is `Neuron`'s default argument, a single draw
        from [0, 1] made when the module is loaded. */
    constructor (nneuron: int, meanRange: Option<(real, real)>, sdMax: real)
      ensures Valid()
      ensures |neurons| == (if nneuron < 0 then 0 else nneuron) + 1
      ensures forall k :: 0 <= k < |neurons| ==> fresh(neurons[k])
      ensures forall k :: 0 <= k < |neurons| ==>
                neurons[k].mean.None? && neurons[k].inputData.None? && neurons[k].output.None? &&
                Within(neurons[k].sw, -1.0, 1.0)
      ensures neurons[0].meanRange == (-1.0, 1.0) && Within(neurons[0].sd, 0.0, 1.0)
      ensures forall k :: 1 <= k < |neurons| ==>
                Within(neurons[k].sd, 0.0, sdMax) &&
                neurons[k].meanRange == (if meanRange.None? then (-1.0, 1.0) else meanRange.value)
    {
      var count := if nneuron < 0 then 0 else nneuron;
      var gaussians: seq<Neuron> := [];
      for j := 0 to count
        invariant |gaussians| == j
        invariant forall i :: 0 <= i < j ==> fresh(gaussians[i])
        invariant forall i, i' :: 0 <= i < i' < j ==> gaussians[i] != gaussians[i']
        invariant forall i :: 0 <= i < j ==>
                    !gaussians[i].isThreshold && gaussians[i].mean.None? &&
                    gaussians[i].inputData.None? && gaussians[i].output.None? &&
                    Within(gaussians[i].sw, -1.0, 1.0) && Within(gaussians[i].sd, 0.0, sdMax) &&
                    gaussians[i].meanRange == (if meanRange.None? then (-1.0, 1.0) else meanRange.value)
      {
        var sd := Uniform(0.0, sdMax);
        var g := new Neuron(None, sd, false, meanRange);
        gaussians := gaussians + [g];
      }
      var thresholdSd := Uniform(0.0, 1.0);
      var t := new Neuron(None, thresholdSd, true, None);
      neurons := [t] + gaussians;
    }

    /** `copy.deepcopy(rbfn)`: a network of fresh neurons, one per neuron of
        other and in the same state. */
    constructor Copy(other: Network)
      requires other.Valid()
      ensures Valid() && States() == other.States()
      ensures forall k :: 0 <= k < |neurons| ==> fresh(neurons[k])
    {
      var copies: seq<Neuron> := [];
      for j := 0 to |other.neurons|
        invariant |copies| == j
        invariant forall i :: 0 <= i < j ==> fresh(copies[i])
        invariant forall i, i' :: 0 <= i < i' < j ==> copies[i] != copies[i']
        invariant forall i :: 0 <= i < j ==> copies[i].State() == other.neurons[i].State()
      {
        var c := new Neuron.Copy(other.neurons[j].State());
        copies := copies + [c];
      }
      neurons := copies;
    }

    /** `RBFN.load_model` (rbfn.py:22-44), in place. */
    method LoadModel(p: seq<real>)
      requires Valid() && |neurons| >= 2 && |p| >= |neurons|
      modifies Footprint()
      ensures Valid() && neurons == old(neurons)
      ensures States() == Load(old(States()), p)
    {
      var n := |neurons|;
      neurons[0].sw := p[0];
      var weights := PySlice(p, 1, n);
      var means := PySlice(p, n, -(n - 1));
      var sds := PySlice(p, -(n - 1), |p|);
      MeansSlice(n, p);
      // int(len(means) / (nneuron - 1)), as |means| == MeansLength(n, |p|)
      var dataDim := DataDim(n, |p|);
      AssignGaussians(weights, means, sds, dataDim);
      ghost var us, vs := old(States()), States();
      forall k | 1 <= k < n
        ensures vs[k] == us[k].(sw := weights[k - 1], mean := Some(Chunk(means, k - 1, dataDim)), sd := sds[k - 1])
      {
      }
      LoadFromSlices(us, vs, p);
    }

    /** The loop of `load_model` (rbfn.py:41-44): Gaussian neuron idx+1 gets
        weight idx, chunk idx of the means and sd idx. */
    method AssignGaussians(weights: seq<real>, means: seq<real>, sds: seq<real>, dataDim: nat)
      requires forall i, j :: 0 <= i < j < |neurons| ==> neurons[i] != neurons[j]
      requires |neurons| >= 1 && |weights| == |sds| == |neurons| - 1
      modifies Footprint()
      ensures neurons == old(neurons)
      ensures neurons[0].State() == old(neurons[0].State())
      ensures forall k :: 1 <= k < |neurons| ==>
                neurons[k].State() == old(neurons[k].State()).(sw := weights[k - 1], mean := Some(Chunk(means, k - 1, dataDim)), sd := sds[k - 1])
    {
      ghost var ns := neurons;
      var n := |neurons|;
      for idx := 0 to n - 1
        invariant neurons == ns
        invariant ns[0].State() == old(ns[0].State())
        invariant forall k :: 1 <= k <= idx ==>
                    ns[k].State() == old(ns[k].State()).(sw := weights[k - 1], mean := Some(Chunk(means, k - 1, dataDim)), sd := sds[k - 1])
        invariant forall k :: idx < k < n ==> ns[k].State() == old(ns[k].State())
      {
        neurons[idx + 1].SetParameters(weights[idx], Chunk(means, idx, dataDim), sds[idx]);
      }
    }

    /** `RBFN.output` (rbfn.py:13-20): feed x to every neuron, sum their
        outputs, and antinormalise the sum when asked. */
    method Output(x: seq<real>, antinorm: bool, exp: real -> real) returns (res: real)
      requires Valid()
      requires forall k :: 0 <= k < |neurons| ==> Admits(neurons[k].State(), x)
      modifies Footprint()
      ensures Valid() && neurons == old(neurons)
      ensures Feeds(old(States()), States(), x, exp)
      ensures HasOutputs(States())
      ensures res == if antinorm then Antinormalize(OutputSum(States(), |neurons|))
                     else OutputSum(States(), |neurons|)
    {
      FeedAll(x, exp);
      res := SumOutputs();
      if antinorm {
        res := Antinormalize(res);
      }
    }

    /** `sum(n.output for n in self.neurons)` (rbfn.py:17). */
    method SumOutputs() returns (s: real)
      requires HasOutputs(States())
      ensures s == OutputSum(States(), |neurons|)
    {
      ghost var now := States();
      s := 0.0;
      for i := 0 to |neurons|
        invariant s == OutputSum(now, i)
      {
        s := s + neurons[i].output.value;
      }
    }

    /** The loop of `output` that feeds x to every neuron (rbfn.py:15-16). */
    method FeedAll(x: seq<real>, exp: real -> real)
      requires Valid()
      requires forall k :: 0 <= k < |neurons| ==> Admits(neurons[k].State(), x)
      modifies Footprint()
      ensures Valid() && neurons == old(neurons)
      ensures Feeds(old(States()), States(), x, exp)
      ensures HasOutputs(States())
    {
      ghost var ns := neurons;
      var n := |neurons|;
      for i := 0 to n
        invariant neurons == ns
        invariant forall k :: 0 <= k < i ==> Fed(old(ns[k].State()), ns[k].State(), x, exp)
        invariant forall k :: i <= k < n ==> ns[k].State() == old(ns[k].State())
      {
        neurons[i].InputData(x, exp);
      }
    }
  }
}
