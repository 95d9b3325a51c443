/** The layers that read weights: convolutional_layer.cpp, deconvolutional_layer.cpp, batchnorm_layer.cpp and
    implicit_layer.cpp. Floats are reals and sqrt is any function. */
module WeightCursor {

  const EPS: real := 0.00001

  /** What a layer takes from the cursor, in this order: if normed four values a filter (biases, scales, means,
      variances), if biased one bias a filter, the kernel. */
  datatype Plan = Plan(normed: bool, biased: bool, filters: nat, kernel: nat) {
    function Norms(): nat { if normed then 4 * filters else 0 }

    function Biases(): nat { if biased then filters else 0 }

    function Count(): nat { Norms() + Biases() + kernel }
  }

  // The scale layer after a normalised layer.
  datatype Norm = Norm(shift: seq<real>, scale: seq<real>)

  datatype Params = Params(norm: seq<Norm>, bias: seq<real>, kernel: seq<real>)

  // A quotient by zero is not part of this model.
  function Over(x: real, y: real): real { if y == 0.0 then 0.0 else x / y }

  // One channel of the scale layer, from its bias, scale, mean and deviation d, and from its variance v.
  function ShiftBy(b: real, s: real, m: real, d: real): real { b - Over(m * s, d) }

  function Shift(b: real, s: real, m: real, v: real, sqrt: real -> real): real { ShiftBy(b, s, m, sqrt(v + EPS)) }

  function Scale(s: real, v: real, sqrt: real -> real): real { Over(s, sqrt(v + EPS)) }

  // The scale layer read at p.
  function NormAt(w: seq<real>, p: nat, F: nat, sqrt: real -> real): (n: Norm)
    requires p + 4 * F <= |w|
    ensures |n.shift| == |n.scale| == F
  {
    Norm(seq(F, k requires 0 <= k < F => Shift(w[p + k], w[p + F + k], w[p + 2 * F + k], w[p + 3 * F + k], sqrt)),
         seq(F, k requires 0 <= k < F => Scale(w[p + F + k], w[p + 3 * F + k], sqrt)))
  }

  /** The layer read at p. */
  function ParamsAt(w: seq<real>, p: nat, plan: Plan, sqrt: real -> real): Params
    requires p + plan.Count() <= |w|
  {
    var q := p + plan.Norms();
    Params(if plan.normed then [NormAt(w, p, plan.filters, sqrt)] else [],
           w[q..q + plan.Biases()],
           w[q + plan.Biases()..p + plan.Count()])
  }

  /** What the layer read at p must be, weight by weight, with F filters: first, if it is normed, 4 F values for the
      scale layer, then, if it is biased, F biases, then the kernel. */
  ghost predicate PartsOf(w: seq<real>, p: nat, plan: Plan, params: Params) {
    var q := p + if plan.normed then 4 * plan.filters else 0;
    var r := q + if plan.biased then plan.filters else 0;
    && |w| >= r + plan.kernel
    && |params.norm| == (if plan.normed then 1 else 0)
    && |params.bias| == (if plan.biased then plan.filters else 0)
    && |params.kernel| == plan.kernel
    && (forall k | 0 <= k < |params.bias| :: params.bias[k] == w[q + k])
    && (forall k | 0 <= k < |params.kernel| :: params.kernel[k] == w[r + k])
    && forall n | n in params.norm :: |n.shift| == |n.scale| == plan.filters
  }

  lemma PartsByIndex(w: seq<real>, p: nat, plan: Plan, sqrt: real -> real)
    requires p + plan.Count() <= |w|
    ensures PartsOf(w, p, plan, ParamsAt(w, p, plan, sqrt))
  {
    hide NormAt;
  }

  /** Folding keeps the meaning of the normalisation: for each channel, the scale layer applied to y is the
      normalised y. */
  lemma FoldIsNormalisation(w: seq<real>, p: nat, plan: Plan, sqrt: real -> real, k: nat, y: real)
    requires plan.normed && p + plan.Count() <= |w| && k < plan.filters
    requires sqrt(w[p + 3 * plan.filters + k] + EPS) != 0.0
    ensures var (F, norm) := (plan.filters, ParamsAt(w, p, plan, sqrt).norm[0]);
      norm.scale[k] * y + norm.shift[k]
      == w[p + F + k] * (y - w[p + 2 * F + k]) / sqrt(w[p + 3 * F + k] + EPS) + w[p + k]
  {
    hide NormAt;
    var F := plan.filters;
    var (b, s, m, v) := (w[p + k], w[p + F + k], w[p + 2 * F + k], w[p + 3 * F + k]);
    NormAtChannel(w, p, F, sqrt, k);
    Affine(s, m, b, sqrt(v + EPS), y);
  }

  lemma NormAtChannel(w: seq<real>, p: nat, F: nat, sqrt: real -> real, k: nat)
    requires p + 4 * F <= |w| && k < F
    ensures NormAt(w, p, F, sqrt).shift[k]
         == Shift(w[p + k], w[p + F + k], w[p + 2 * F + k], w[p + 3 * F + k], sqrt)
    ensures NormAt(w, p, F, sqrt).scale[k] == Scale(w[p + F + k], w[p + 3 * F + k], sqrt)
  {
  }

  lemma Affine(s: real, m: real, b: real, d: real, y: real)
    requires d != 0.0
    ensures s / d * y + (b - m * s / d) == s * (y - m) / d + b
  {
  }

  // ---------- The loops ----------

  // Reading n weights one by one; ok is false when a read is past the end.
  method ReadSegment(weights: seq<real>, weightPtr: nat, n: nat) returns (ok: bool, val: seq<real>, p: nat)
    ensures ok <==> weightPtr + n <= |weights|
    ensures ok ==> p == weightPtr + n && val == weights[weightPtr..p]
  {
    ok, val, p := true, [], weightPtr;
    if weightPtr > |weights| { return false, [], p; }
    for i := 0 to n
      invariant p == weightPtr + i <= |weights| && val == weights[weightPtr..p]
    {
      if p >= |weights| { return false, val, p; }
      val := val + [weights[p]];
      p := p + 1;
    }
  }

  method FoldNorm(w: seq<real>, p: nat, bnBiases: seq<real>, bnWeights: seq<real>, bnRunningMean: seq<real>,
                  bnRunningVar: seq<real>, sqrt: real -> real)
    returns (norm: Norm)
    requires |bnBiases| == |bnWeights| == |bnRunningMean| == |bnRunningVar| && p + 4 * |bnBiases| <= |w|
    requires forall k | 0 <= k < |bnBiases| ::
      && bnBiases[k] == w[p + k] && bnWeights[k] == w[p + |bnBiases| + k]
      && bnRunningMean[k] == w[p + 2 * |bnBiases| + k]
      && bnRunningVar[k] == sqrt(w[p + 3 * |bnBiases| + k] + EPS)
    ensures norm == NormAt(w, p, |bnBiases|, sqrt)
  {
    hide Over, ShiftBy;
    var size := |bnBiases|;
    var shiftWt: seq<real>, scaleWt: seq<real> := [], [];
    for i := 0 to size
      invariant |shiftWt| == i && forall k | 0 <= k < i ::
        shiftWt[k] == Shift(w[p + k], w[p + size + k], w[p + 2 * size + k], w[p + 3 * size + k], sqrt)
    {
      shiftWt := shiftWt + [ShiftBy(bnBiases[i], bnWeights[i], bnRunningMean[i], bnRunningVar[i])];
    }
    for i := 0 to size
      invariant |scaleWt| == i && forall k | 0 <= k < i ::
        scaleWt[k] == Scale(w[p + size + k], w[p + 3 * size + k], sqrt)
    {
      scaleWt := scaleWt + [Over(bnWeights[i], bnRunningVar[i])];
    }
    norm := Norm(shiftWt, scaleWt);
  }

  method ReadNorm(weights: seq<real>, weightPtr: nat, filters: nat, sqrt: real -> real)
    returns (ok: bool, norm: Norm, p: nat)
    ensures ok <==> weightPtr + 4 * filters <= |weights|
    ensures ok ==> p == weightPtr + 4 * filters && norm == NormAt(weights, weightPtr, filters, sqrt)
  {
    hide NormAt;
    norm, p := Norm([], []), weightPtr;
    var bnBiases, bnWeights, bnRunningMean;
    ok, bnBiases, p := ReadSegment(weights, weightPtr, filters);
    if !ok { return; }
    ok, bnWeights, p := ReadSegment(weights, p, filters);
    if !ok { return; }
    ok, bnRunningMean, p := ReadSegment(weights, p, filters);
    if !ok { return; }
    var bnRunningVar: seq<real> := [];
    ghost var start := p;
    for i := 0 to filters
      invariant p == start + i <= |weights| && |bnRunningVar| == i
      invariant forall k | 0 <= k < i :: bnRunningVar[k] == sqrt(weights[start + k] + EPS)
    {
      if p >= |weights| { ok := false; return; }
      bnRunningVar := bnRunningVar + [sqrt(weights[p] + EPS)];
      p := p + 1;
    }
    norm := FoldNorm(weights, weightPtr, bnBiases, bnWeights, bnRunningMean, bnRunningVar, sqrt);
  }

  /** A layer that reads weights: exactly its count, or past the end. */
  method ReadLayer(weights: seq<real>, weightPtr: nat, plan: Plan, sqrt: real -> real)
    returns (ok: bool, params: Params, p: nat)
    ensures ok <==> weightPtr + plan.Count() <= |weights|
    ensures ok ==> p == weightPtr + plan.Count() && params == ParamsAt(weights, weightPtr, plan, sqrt)
    ensures ok ==> PartsOf(weights, weightPtr, plan, params)
  {
    hide NormAt, PartsOf;
    params, p, ok := Params([], [], []), weightPtr, true;
    var norms: seq<Norm>, bias: seq<real>, kernel: seq<real> := [], [], [];
    if plan.normed {
      var norm;
      ok, norm, p := ReadNorm(weights, weightPtr, plan.filters, sqrt);
      if !ok { return; }
      norms := [norm];
    }
    if plan.biased {
      ok, bias, p := ReadSegment(weights, p, plan.filters);
      if !ok { return; }
    }
    ok, kernel, p := ReadSegment(weights, p, plan.kernel);
    if !ok { return; }
    params := Params(norms, bias, kernel);
    PartsByIndex(weights, weightPtr, plan, sqrt);
  }
}
