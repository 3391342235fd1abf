/**
 The chromosome codec of the RBFN: `RBFN.load_model` reads a flat parameter
 vector laid out as

   | threshold sw | n-1 weights | (n-1)*d means | n-1 sds |

 where n is the number of neurons (threshold included) and d, the input
 dimension, is recovered from the vector's length. The decoding is written
 with Python's slice semantics, so that vectors of any length of at least
 n behave as they do in the source; the lemmas then say what happens for
 vectors of the exact layout length.
 */
module Chromosome {

  /** Where a Python slice bound `i` lands in a sequence of length `len`:
      negative bounds count from the end, out-of-range bounds are clamped. */
  function Bound(i: int, len: nat): (b: nat)
    ensures b <= len
    ensures 0 <= i <= len ==> b == i
    ensures i < 0 && i + len >= 0 ==> b == i + len
  {
    if i < 0 then (if i + len < 0 then 0 else i + len)
    else if i > len then len
    else i
  }

  /** Python's `s[lo:hi]`. */
  function PySlice<T>(s: seq<T>, lo: int, hi: int): (r: seq<T>)
    ensures |r| <= |s|
    ensures 0 <= lo <= hi <= |s| ==> r == s[lo..hi]
  {
    var a, b := Bound(lo, |s|), Bound(hi, |s|);
    if a <= b then s[a..b] else []
  }

  /** The parameters of an RBFN as `load_model` hands them to its neurons:
      the threshold neuron's weight, then per Gaussian neuron its weight,
      its mean vector and its standard deviation. */
  datatype Params = Params(thresholdSw: real, weights: seq<real>, means: seq<seq<real>>, sds: seq<real>)

  /** One weight, one mean and one sd per Gaussian neuron. */
  predicate Shaped(q: Params)
  {
    |q.weights| == |q.means| == |q.sds|
  }

  /** Shaped, and every mean has dimension d. */
  predicate HasDim(q: Params, d: nat)
  {
    Shaped(q) && forall k :: 0 <= k < |q.means| ==> |q.means[k]| == d
  }

  /** Length of a chromosome for n neurons (threshold included) over inputs of dimension d. */
  function LayoutLength(n: nat, d: nat): (len: nat)
    requires n >= 1
    ensures len >= 2 * n - 1
  {
    n + (n - 1) * d + (n - 1)
  }

  /** Length of `params[n:-(n-1)]` for a vector of length len. */
  function MeansLength(n: nat, len: nat): nat
    requires n >= 2
  {
    if len - (n - 1) > n then len - (n - 1) - n else 0
  }

  /** Whole-number division by repeated subtraction: `int(a / b)` for
      a >= 0 and b > 0, where truncating the quotient is taking its floor. */
  function Quotient(a: nat, b: nat): nat
    requires b > 0
    decreases a
  {
    if a < b then 0 else 1 + Quotient(a - b, b)
  }

  /** `int(len(means) / (nneuron - 1))`: the input dimension `load_model` recovers. */
  function DataDim(n: nat, len: nat): nat
    requires n >= 2
  {
    Quotient(MeansLength(n, len), n - 1)
  }

  lemma MulMono(a: nat, b: nat, d: nat)
    requires a <= b
    ensures a * d <= b * d
  {
    assert b * d - a * d == (b - a) * d;
  }

  /** Chunk k of m chunks of size d lies within the first m*d positions. */
  lemma ChunkFits(k: nat, m: nat, d: nat)
    requires k < m
    ensures 0 <= k * d && (k + 1) * d == k * d + d && (k + 1) * d <= m * d
  {
    MulMono(k + 1, m, d);
  }

  /** The quotient q leaves a remainder a - q*b in [0, b). */
  lemma {:induction false} QuotientBounds(a: nat, b: nat)
    requires b > 0
    ensures Quotient(a, b) * b <= a < Quotient(a, b) * b + b
  {
    if a >= b {
      QuotientBounds(a - b, b);
      var q := Quotient(a - b, b);
      assert (q + 1) * b == q * b + b;
    }
  }

  /** Quotient is Dafny's division on naturals. */
  lemma QuotientIsDivision(a: nat, b: nat)
    requires b > 0
    ensures Quotient(a, b) == a / b
  {
    QuotientBounds(a, b);
    var q, q' := Quotient(a, b), a / b;
    assert q' * b <= a < q' * b + b;
    if q < q' {
      MulMono(q + 1, q', b);
      assert false;
    } else if q' < q {
      MulMono(q' + 1, q, b);
      assert false;
    }
  }

  /** Dividing b*c by b gives c back. */
  lemma {:induction false} QuotientOfMultiple(c: nat, b: nat)
    requires b > 0
    ensures Quotient(b * c, b) == c
  {
    if c > 0 {
      assert b * c - b == b * (c - 1);
      MulMono(1, c, b);
      QuotientOfMultiple(c - 1, b);
    }
  }

  /** n-1 whole means of the recovered dimension fit in the means segment. */
  lemma DataDimFits(n: nat, len: nat)
    requires n >= 2 && len >= n
    ensures 0 <= (n - 1) * DataDim(n, len) <= MeansLength(n, len)
    ensures n + MeansLength(n, len) <= len
  {
    QuotientBounds(MeansLength(n, len), n - 1);
  }

  lemma PrefixOfSlice<T>(s: seq<T>, a: nat, m: nat, j: nat)
    requires a + m <= |s| && j <= m
    ensures s[a .. a + m][..j] == s[a .. a + j]
  {
  }

  /** `params[n:-(n-1)]` is the block of MeansLength values after the weights. */
  lemma MeansSlice(n: nat, p: seq<real>)
    requires n >= 2 && |p| >= n
    ensures n + MeansLength(n, |p|) <= |p|
    ensures PySlice(p, n, -(n - 1)) == p[n .. n + MeansLength(n, |p|)]
  {
  }

  /** Python's `s[k*d:(k+1)*d]` for d >= 0, the k-th of consecutive pieces
      of length d, written as dropping k pieces and taking the next one
      (ChunkIsSlice shows it is that slice). */
  function Chunk(s: seq<real>, k: nat, d: nat): seq<real>
    decreases k
  {
    if k == 0 then PySlice(s, 0, d) else Chunk(PySlice(s, d, |s|), k - 1, d)
  }

  /** The product one step of the induction over chunks moves across. */
  lemma MulStep(k: nat, d: nat, lo: int)
    requires lo == k * d
    ensures k == 0 ==> lo == 0
    ensures k > 0 ==> d <= lo && lo - d == (k - 1) * d
  {
    if k > 0 {
      MulMono(1, k, d);
    }
  }

  /** Dropping d values and then slicing is slicing further along. */
  lemma ShiftSlice(s: seq<real>, d: nat, lo: int, hi: int)
    requires d <= lo <= hi
    ensures PySlice(PySlice(s, d, |s|), lo - d, hi - d) == PySlice(s, lo, hi)
  {
    if d <= |s| {
      var s' := s[d..];
      assert PySlice(s, d, |s|) == s';
      var a, b := Bound(lo, |s|), Bound(hi, |s|);
      assert d <= a <= b;
      assert Bound(lo - d, |s'|) == a - d;
      assert Bound(hi - d, |s'|) == b - d;
      assert PySlice(s, lo, hi) == s[a .. b];
      var u, v := s'[a - d .. b - d], s[a .. b];
      forall i | 0 <= i < b - a
        ensures u[i] == v[i]
      {
      }
      assert u == v;
    }
  }

  /** Chunk is the slice `s[k*d:(k+1)*d]`, out-of-range bounds included. */
  lemma {:induction false} ChunkIsSlice(s: seq<real>, k: nat, d: nat)
    ensures Chunk(s, k, d) == PySlice(s, k * d, (k + 1) * d)
    decreases k
  {
    var lo, hi := k * d, (k + 1) * d;
    assert hi == lo + d;
    MulStep(k, d, lo);
    if k > 0 {
      ChunkIsSlice(PySlice(s, d, |s|), k - 1, d);
      assert (k - 1 + 1) * d == hi - d;
      ShiftSlice(s, d, lo, hi);
    }
  }

  /** A chunk that lies within s, starting at lo = k*d. */
  lemma {:induction false} ChunkSlice(s: seq<real>, k: nat, d: nat, lo: int)
    requires lo == k * d && lo + d <= |s|
    ensures 0 <= lo && Chunk(s, k, d) == s[lo .. lo + d]
    decreases k
  {
    MulStep(k, d, lo);
    if k > 0 {
      var s' := s[d..];
      assert PySlice(s, d, |s|) == s';
      ChunkSlice(s', k - 1, d, lo - d);
      assert s'[lo - d .. lo] == s[lo .. lo + d];
    }
  }

  /** The first m chunks of size d of s, in order: the means the loop of
      `load_model` cuts out, one per Gaussian neuron. */
  function Chunks(s: seq<real>, m: nat, d: nat): (c: seq<seq<real>>)
    ensures |c| == m
  {
    seq(m, k requires 0 <= k < m => Chunk(s, k, d))
  }

  /** Past the first chunk, the chunks of s are those of s without its first d values. */
  lemma ChunksTail(s: seq<real>, m: nat, d: nat)
    requires m > 0 && d <= |s|
    ensures Chunks(s, m, d)[0] == s[..d]
    ensures Chunks(s, m, d)[1..] == Chunks(s[d..], m - 1, d)
  {
    assert PySlice(s, d, |s|) == s[d..];
    var c, c' := Chunks(s, m, d)[1..], Chunks(s[d..], m - 1, d);
    forall i | 0 <= i < m - 1
      ensures c[i] == c'[i]
    {
    }
  }

  /** Decoding as `load_model` does it (rbfn.py:35-44): the threshold
      weight `params[0]`, the weights `params[1:n]`, the means
      `params[n:-(n-1)]` cut into n-1 chunks of the recovered dimension, and
      the sds `params[-(n-1):]`. */
  function Decode(n: nat, p: seq<real>): (q: Params)
    requires n >= 2 && |p| >= n
    ensures Shaped(q) && |q.weights| == n - 1
  {
    var weights, means, sds := PySlice(p, 1, n), PySlice(p, n, -(n - 1)), PySlice(p, -(n - 1), |p|);
    Params(p[0], weights, Chunks(means, n - 1, DataDim(n, |p|)), sds)
  }

  /** The scalar segments `load_model` reads (rbfn.py:36-39, 42, 44): the
      threshold weight at index 0, the weights at 1..n-1 and the sds in the
      last n-1 places. */
  lemma DecodeScalars(n: nat, p: seq<real>)
    requires n >= 2 && |p| >= n
    ensures Decode(n, p).thresholdSw == p[0]
    ensures Decode(n, p).weights == p[1 .. n]
    ensures Decode(n, p).sds == p[|p| - (n - 1) ..]
  {
  }

  /** Concatenation of the mean vectors, in neuron order. */
  function Flatten(c: seq<seq<real>>): (r: seq<real>)
  {
    if |c| == 0 then [] else c[0] + Flatten(c[1..])
  }

  lemma {:induction false} FlattenLength(c: seq<seq<real>>, d: nat)
    requires forall k :: 0 <= k < |c| ==> |c[k]| == d
    ensures |Flatten(c)| == |c| * d
  {
    if |c| > 0 {
      FlattenLength(c[1..], d);
    }
  }

  /** Cutting the first m*d values of s into m chunks of d and flattening
      them back gives those values. */
  lemma {:induction false} FlattenChunks(s: seq<real>, m: nat, d: nat)
    requires m * d <= |s|
    ensures forall k :: 0 <= k < m ==> |Chunks(s, m, d)[k]| == d
    ensures Flatten(Chunks(s, m, d)) == s[..m * d]
  {
    if m > 0 {
      MulStep(m, d, m * d);
      var s' := s[d..];
      ChunksTail(s, m, d);
      FlattenChunks(s', m - 1, d);
      assert s[..m * d] == s[..d] + s'[..(m - 1) * d];
    }
  }

  /** Flatten is injective on sequences of means of one dimension. */
  lemma {:induction false} FlattenInjective(c1: seq<seq<real>>, c2: seq<seq<real>>, d: nat)
    requires |c1| == |c2|
    requires forall k :: 0 <= k < |c1| ==> |c1[k]| == d
    requires forall k :: 0 <= k < |c2| ==> |c2[k]| == d
    requires Flatten(c1) == Flatten(c2)
    ensures c1 == c2
  {
    if |c1| > 0 {
      var f1, f2 := Flatten(c1), Flatten(c2);
      assert c1[0] == f1[..d];
      assert c2[0] == f2[..d];
      assert Flatten(c1[1..]) == f1[d..];
      assert Flatten(c2[1..]) == f2[d..];
      FlattenInjective(c1[1..], c2[1..], d);
      assert c1 == [c1[0]] + c1[1..];
      assert c2 == [c2[0]] + c2[1..];
    }
  }

  /** The m chunks of d values cut from the block of len values at index a
      flatten to the block's first m*d values. */
  lemma FlattenBlock(p: seq<real>, s: seq<real>, a: nat, len: nat, m: nat, d: nat)
    requires a + len <= |p| && s == p[a .. a + len] && m * d <= len
    ensures forall k :: 0 <= k < m ==> |Chunks(s, m, d)[k]| == d
    ensures 0 <= m * d && a + m * d <= |p| && Flatten(Chunks(s, m, d)) == p[a .. a + m * d]
  {
    FlattenChunks(s, m, d);
    PrefixOfSlice(p, a, len, m * d);
  }

  /** The means `load_model` reads (rbfn.py:38, 40, 43): n-1 vectors of the
      recovered dimension d, laid end to end from index n. */
  lemma DecodeMeans(n: nat, p: seq<real>)
    requires n >= 2 && |p| >= n
    ensures HasDim(Decode(n, p), DataDim(n, |p|))
    ensures var m := (n - 1) * DataDim(n, |p|);
      0 <= m && n + m <= |p| && Flatten(Decode(n, p).means) == p[n .. n + m]
  {
    DataDimFits(n, |p|);
    MeansSlice(n, p);
    FlattenBlock(p, PySlice(p, n, -(n - 1)), n, MeansLength(n, |p|), n - 1, DataDim(n, |p|));
  }

  /** Chunk k of the block of len values at index a sits at a + k*d when it
      lies within the block. */
  lemma ChunkOfBlock(p: seq<real>, s: seq<real>, a: nat, len: nat, d: nat, k: nat)
    requires a + len <= |p| && s == p[a .. a + len] && (k + 1) * d <= len
    ensures 0 <= k * d <= (k + 1) * d && a + (k + 1) * d <= |p|
    ensures Chunk(s, k, d) == p[a + k * d .. a + (k + 1) * d]
  {
    ChunkFits(k, k + 1, d);
    var lo := k * d;
    ChunkSlice(s, k, d, lo);
    SliceOfSlice(p, a, len, lo, lo + d);
  }

  /** A slice of the block of len values at index a is a slice of p. */
  lemma SliceOfSlice<T>(p: seq<T>, a: nat, len: nat, lo: nat, hi: nat)
    requires a + len <= |p| && lo <= hi <= len
    ensures p[a .. a + len][lo .. hi] == p[a + lo .. a + hi]
  {
    var u, v := p[a .. a + len][lo .. hi], p[a + lo .. a + hi];
    forall i | 0 <= i < hi - lo
      ensures u[i] == v[i]
    {
    }
  }

  /** Chunk k of `params[n:-(n-1)]`, cut by the recovered dimension d, is
      `params[n + k*d : n + (k+1)*d]`. */
  lemma MeansChunk(n: nat, p: seq<real>, k: nat)
    requires n >= 2 && |p| >= n && k < n - 1
    ensures var d := DataDim(n, |p|);
      0 <= k * d <= (k + 1) * d && n + (k + 1) * d <= |p| &&
      Chunk(PySlice(p, n, -(n - 1)), k, d) == p[n + k * d .. n + (k + 1) * d]
  {
    var d := DataDim(n, |p|);
    DataDimFits(n, |p|);
    MeansSlice(n, p);
    ChunkFits(k, n - 1, d);
    ChunkOfBlock(p, PySlice(p, n, -(n - 1)), n, MeansLength(n, |p|), d, k);
  }

  /** Mean k of the decoded model is `params[n + k*d : n + (k+1)*d]`. */
  lemma DecodeMean(n: nat, p: seq<real>, k: nat)
    requires n >= 2 && |p| >= n && k < n - 1
    ensures var d := DataDim(n, |p|);
      0 <= k * d <= (k + 1) * d && n + (k + 1) * d <= |p| &&
      Decode(n, p).means[k] == p[n + k * d .. n + (k + 1) * d]
  {
    MeansChunk(n, p, k);
  }

  /** The chromosome of a model: the layout `GA.__init__` assembles
      (ga.py:41-44) and `load_model` reads back. */
  function Encode(q: Params): (p: seq<real>)
  {
    [q.thresholdSw] + q.weights + Flatten(q.means) + q.sds
  }

  /** For a chromosome of the layout length, `load_model` recovers d. */
  lemma DataDimRecovered(n: nat, d: nat)
    requires n >= 2
    ensures DataDim(n, LayoutLength(n, d)) == d
  {
    assert MeansLength(n, LayoutLength(n, d)) == (n - 1) * d;
    QuotientOfMultiple(d, n - 1);
  }

  /** For a chromosome of the layout length the four segments are consecutive
      and cover the whole vector exactly: decoding and re-encoding gives it back. */
  lemma EncodeDecode(n: nat, d: nat, p: seq<real>)
    requires n >= 2 && |p| == LayoutLength(n, d)
    ensures HasDim(Decode(n, p), d)
    ensures Encode(Decode(n, p)) == p
  {
    DataDimRecovered(n, d);
    DecodeScalars(n, p);
    DecodeMeans(n, p);
    Reassemble(Decode(n, p), p, n, (n - 1) * d);
  }

  /** A vector whose four consecutive segments are the parts of q is q's encoding. */
  lemma Reassemble(q: Params, p: seq<real>, n: nat, m: nat)
    requires 1 <= n && |p| == n + m + (n - 1)
    requires q.thresholdSw == p[0] && q.weights == p[1 .. n]
    requires Flatten(q.means) == p[n .. n + m] && q.sds == p[|p| - (n - 1) ..]
    ensures Encode(q) == p
  {
    assert p == [p[0]] + p[1 .. n] + p[n .. n + m] + p[n + m ..];
  }

  /** Where the four parts of a shaped model sit in its encoding. */
  lemma EncodeSegments(q: Params, d: nat)
    requires HasDim(q, d) && |q.weights| >= 1
    ensures var n, p := |q.weights| + 1, Encode(q);
      |p| == LayoutLength(n, d) && p[0] == q.thresholdSw && p[1 .. n] == q.weights &&
      p[n .. n + (n - 1) * d] == Flatten(q.means) && p[|p| - (n - 1) ..] == q.sds
  {
    var n, p := |q.weights| + 1, Encode(q);
    FlattenLength(q.means, d);
    assert p[1 .. n] == q.weights;
    assert p[n .. n + (n - 1) * d] == Flatten(q.means);
    assert p[|p| - (n - 1) ..] == q.sds;
  }

  /** Decoding the encoding of a shaped model gives the model back. */
  lemma DecodeEncode(q: Params, d: nat)
    requires HasDim(q, d) && |q.weights| >= 1
    ensures |Encode(q)| == LayoutLength(|q.weights| + 1, d)
    ensures Decode(|q.weights| + 1, Encode(q)) == q
  {
    var n := |q.weights| + 1;
    var p := Encode(q);
    EncodeSegments(q, d);
    DataDimRecovered(n, d);
    DecodeScalars(n, p);
    DecodeMeans(n, p);
    FlattenInjective(Decode(n, p).means, q.means, d);
  }
}
