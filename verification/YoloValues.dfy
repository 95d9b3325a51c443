/** What one thread of the three detection kernels computes from the fields of its cell. Floats are reals;
    the exponential is any positive function and the power any function. */
module YoloValues {
  import opened YoloTensor
  import opened YoloSlots
  import opened YoloLayout

  type PositiveFn = f: real -> real | forall x: real :: f(x) > 0.0 witness (x: real) => 1.0

  datatype Math = Math(exp: PositiveFn, pow: (real, real) -> real)

  function Sigmoid(m: Math, x: real): real { 1.0 / (1.0 + m.exp(-x)) }

  // Conversion of a float to an int: toward zero.
  function Truncate(x: real): int { if x >= 0.0 then x.Floor else -((-x).Floor) }

  // ---------- The winning class ----------

  datatype Winner = Winner(prob: real, index: int)

  /** maxProb and maxIndex after the loop: the first class of greatest positive probability, or none. */
  function Best(probs: seq<real>): (w: Winner)
    ensures w.index == -1 ==> w.prob == 0.0 && forall k | 0 <= k < |probs| :: probs[k] <= 0.0
    ensures w.index != -1 ==> 0 <= w.index < |probs| && w.prob == probs[w.index] > 0.0
    ensures w.index != -1 ==> forall k | 0 <= k < |probs| :: probs[k] <= w.prob && (k < w.index ==> probs[k] < w.prob)
  {
    if |probs| == 0 then Winner(0.0, -1)
    else
      var n := |probs| - 1;
      var w := Best(probs[..n]);
      assert forall k | 0 <= k < n :: probs[..n][k] == probs[k];
      if probs[n] > w.prob then Winner(probs[n], n) else w
  }

  // ---------- Softmax (yoloForward_v2.cu) ----------

  const TEMP: real := 1.0

  // The largest of the values, each first converted to int.
  function Largest(vals: seq<real>): (r: real)
    requires |vals| > 0
  {
    var n := |vals| - 1;
    var v := Truncate(vals[n]) as real;
    if n == 0 then v
    else
      var l := Largest(vals[..n]);
      if v > l then v else l
  }

  function Exponential(m: Math, vals: seq<real>, k: nat): (e: real)
    requires k < |vals|
    ensures e > 0.0
  {
    m.exp(vals[k] / TEMP - Largest(vals) / TEMP)
  }

  function Exponentials(m: Math, vals: seq<real>): (es: seq<real>)
    ensures |es| == |vals| && forall k | 0 <= k < |es| :: es[k] > 0.0
  {
    seq(|vals|, k requires 0 <= k < |vals| => Exponential(m, vals, k))
  }

  function Sum(s: seq<real>, n: nat): real
    requires n <= |s|
  {
    if n == 0 then 0.0 else Sum(s, n - 1) + s[n - 1]
  }

  lemma {:induction false} SumPositive(s: seq<real>, n: nat)
    requires n <= |s| && forall k | 0 <= k < |s| :: s[k] > 0.0
    ensures Sum(s, n) >= 0.0 && (n > 0 ==> Sum(s, n) > 0.0)
  {
    if n > 0 { SumPositive(s, n - 1); }
  }

  // es[k] / sum, where sum is 0 only if there is nothing to divide.
  function Softmax(m: Math, vals: seq<real>): (p: seq<real>)
    ensures |p| == |vals|
  {
    var es := Exponentials(m, vals);
    SumPositive(es, |es|);
    seq(|es|, k requires 0 <= k < |es| => es[k] / Sum(es, |es|))
  }

  lemma {:induction false} SumScales(p: seq<real>, es: seq<real>, s: real, n: nat)
    requires |p| == |es| && s > 0.0 && n <= |p| && forall k | 0 <= k < |p| :: p[k] == es[k] / s
    ensures Sum(p, n) == Sum(es, n) / s
  {
    if n > 0 { SumScales(p, es, s, n - 1); }
  }

  /** The class probabilities of the region kernel are positive and add up to one. */
  lemma SoftmaxIsDistribution(m: Math, vals: seq<real>)
    requires |vals| > 0
    ensures Sum(Softmax(m, vals), |vals|) == 1.0
    ensures forall k | 0 <= k < |vals| :: Softmax(m, vals)[k] > 0.0
  {
    var es, p := Exponentials(m, vals), Softmax(m, vals);
    Normalised(es, p) by { SumPositive(es, |es|); }
  }

  lemma Normalised(es: seq<real>, p: seq<real>)
    requires |p| == |es| > 0 && forall k | 0 <= k < |es| :: es[k] > 0.0
    requires Sum(es, |es|) > 0.0 && forall k | 0 <= k < |p| :: p[k] == es[k] / Sum(es, |es|)
    ensures Sum(p, |p|) == 1.0 && forall k | 0 <= k < |p| :: p[k] > 0.0
  {
    hide Sum;
    SumScales(p, es, Sum(es, |es|), |es|);
    SelfQuotient(Sum(es, |es|));
    forall k | 0 <= k < |p| ensures p[k] > 0.0 { PositiveQuotient(es[k], Sum(es, |es|)); }
  }

  lemma SelfQuotient(s: real)
    requires s > 0.0
    ensures s / s == 1.0
  {
  }

  lemma PositiveQuotient(e: real, s: real)
    requires e > 0.0 && s > 0.0
    ensures e / s > 0.0
  {
  }

  // ---------- One thread ----------

  datatype Kernel = Yolo | YoloNc | Region

  datatype Layer = Layer(netWidth: nat, netHeight: nat, numClasses: nat, newCoords: nat, outputSize: nat,
                         tensors: Tensors<real>)

  // The choice enqueue makes.
  function KernelOf(l: Layer, i: nat): Kernel
    requires i < |l.tensors|
  {
    if |l.tensors[i].mask| > 0 then (if l.newCoords != 0 then YoloNc else Yolo) else Region
  }

  predicate Readable(t: TensorInfo<real>) {
    if |t.mask| > 0 then
      t.numBBoxes <= |t.mask| && forall z | 0 <= z < t.numBBoxes :: 0 <= t.mask[z] && t.mask[z] * 2 + 1 < |t.anchors|
    else t.numBBoxes * 2 <= |t.anchors|
  }

  // A centre, from the offset v within its cell: widened by alpha, and as the region kernel has it.
  function Centre(v: real, alpha: real, cell: nat, net: nat, grid: nat): real
    requires grid > 0
  {
    var beta := -0.5 * (alpha - 1.0);
    (v * alpha + beta + cell as real) * net as real / grid as real
  }

  function RegionCentre(v: real, cell: nat, net: nat, grid: nat): real
    requires grid > 0
  {
    (v + cell as real) * net as real / grid as real
  }

  // A size of the region kernel, whose anchors are in cells.
  function RegionSize(e: real, anchor: real, net: nat, grid: nat): real
    requires grid > 0
  {
    e * anchor * net as real / grid as real
  }

  // boxes[count * 4 + f]: centre x, centre y, width, height.
  function BoxField(m: Math, l: Layer, i: nat, c: Cell, raw: seq<real>, f: nat): real
    requires i < |l.tensors| && Readable(l.tensors[i])
    requires InGrid(c, l.tensors[i].numBBoxes, l.tensors[i].gridSizeX, l.tensors[i].gridSizeY)
    requires |raw| == 5 + l.numClasses && f < 4
  {
    var t := l.tensors[i];
    var (alpha, gx, gy) := (t.scaleXY, t.gridSizeX, t.gridSizeY);
    match KernelOf(l, i)
    case Yolo =>
      if f == 0 then Centre(Sigmoid(m, raw[0]), alpha, c.x, l.netWidth, gx)
      else if f == 1 then Centre(Sigmoid(m, raw[1]), alpha, c.y, l.netHeight, gy)
      else if f == 2 then m.exp(raw[2]) * t.anchors[t.mask[c.z] * 2]
      else m.exp(raw[3]) * t.anchors[t.mask[c.z] * 2 + 1]
    case YoloNc =>
      if f == 0 then Centre(raw[0], alpha, c.x, l.netWidth, gx)
      else if f == 1 then Centre(raw[1], alpha, c.y, l.netHeight, gy)
      else if f == 2 then m.pow(raw[2] * 2.0, 2.0) * t.anchors[t.mask[c.z] * 2]
      else m.pow(raw[3] * 2.0, 2.0) * t.anchors[t.mask[c.z] * 2 + 1]
    case Region =>
      if f == 0 then RegionCentre(Sigmoid(m, raw[0]), c.x, l.netWidth, gx)
      else if f == 1 then RegionCentre(Sigmoid(m, raw[1]), c.y, l.netHeight, gy)
      else if f == 2 then RegionSize(m.exp(raw[2]), t.anchors[c.z * 2], l.netWidth, gx)
      else RegionSize(m.exp(raw[3]), t.anchors[c.z * 2 + 1], l.netHeight, gy)
  }

  // The probability of class k as the kernel's loop sees it, given the thread's softmax cells.
  function ClassProb(m: Math, kernel: Kernel, raw: seq<real>, scratch: seq<real>, k: nat): real
    requires |raw| == 5 + |scratch| && k < |scratch|
  {
    match kernel
    case Yolo => Sigmoid(m, raw[5 + k])
    case YoloNc => raw[5 + k]
    case Region => scratch[k]
  }

  function ClassProbs(m: Math, kernel: Kernel, raw: seq<real>, scratch: seq<real>): (p: seq<real>)
    requires |raw| == 5 + |scratch|
    ensures |p| == |scratch|
  {
    seq(|scratch|, k requires 0 <= k < |scratch| => ClassProb(m, kernel, raw, scratch, k))
  }

  function Objectness(m: Math, kernel: Kernel, raw: seq<real>): real
    requires |raw| >= 5
  {
    if kernel == YoloNc then raw[4] else Sigmoid(m, raw[4])
  }

  // The class a thread settles on once its softmax cells are complete.
  function Choice(m: Math, kernel: Kernel, raw: seq<real>): Winner
    requires |raw| >= 5
  {
    Best(ClassProbs(m, kernel, raw, Softmax(m, raw[5..])))
  }

  /** Outside the new-coordinates kernel every class has positive probability, so a class is always chosen. */
  lemma ChoiceExists(m: Math, kernel: Kernel, raw: seq<real>)
    requires |raw| > 5 && kernel != YoloNc
    ensures 0 <= Choice(m, kernel, raw).index < |raw| - 5 && Choice(m, kernel, raw).prob > 0.0
  {
    SoftmaxIsDistribution(m, raw[5..]);
    var probs := ClassProbs(m, kernel, raw, Softmax(m, raw[5..]));
    PositiveQuotient(1.0, 1.0 + m.exp(-raw[5]));
    assert probs[0] > 0.0;
  }

  // ---------- What the results mean ----------

  lemma SigmoidInUnit(m: Math, x: real)
    ensures 0.0 < Sigmoid(m, x) < 1.0
  {
    var e := m.exp(-x);
    assert 1.0 / (1.0 + e) * (1.0 + e) == 1.0;
  }

  lemma ScaleMono(a: real, b: real, n: real, g: real)
    requires a <= b && n >= 0.0 && g > 0.0
    ensures a * n / g <= b * n / g
  {
    assert (b - a) * n >= 0.0;
  }

  // Within half cells of the middle of a cell of the grid, in pixels.
  predicate Near(x: real, half: real, cell: nat, net: nat, grid: nat)
    requires grid > 0
  {
    && (cell as real + 0.5 - half) * net as real / grid as real <= x
    && x <= (cell as real + 0.5 + half) * net as real / grid as real
  }

  lemma CentreIsNear(v: real, alpha: real, cell: nat, net: nat, grid: nat)
    requires grid > 0 && 0.0 <= v <= 1.0 && alpha >= 0.0
    ensures Near(Centre(v, alpha, cell, net, grid), alpha / 2.0, cell, net, grid)
  {
    var at := v * alpha + -0.5 * (alpha - 1.0) + cell as real;
    assert 0.0 <= v * alpha <= alpha;
    ScaleMono(cell as real + 0.5 - alpha / 2.0, at, net as real, grid as real);
    ScaleMono(at, cell as real + 0.5 + alpha / 2.0, net as real, grid as real);
  }

  lemma RegionCentreIsNear(v: real, cell: nat, net: nat, grid: nat)
    requires grid > 0 && 0.0 <= v <= 1.0
    ensures Near(RegionCentre(v, cell, net, grid), 0.5, cell, net, grid)
  {
    ScaleMono(cell as real, v + cell as real, net as real, grid as real);
    ScaleMono(v + cell as real, cell as real + 1.0, net as real, grid as real);
  }

  // The factor that widens the range of a centre.
  function Reach(kernel: Kernel, t: TensorInfo<real>): real { if kernel == Region then 1.0 else t.scaleXY }

  /** The centre of a box is that of its cell, give or take half of scale_x_y cells (half a cell in the region
      kernel). The new-coordinates kernel is given activated fields. */
  lemma CentreNearCell(m: Math, l: Layer, i: nat, c: Cell, raw: seq<real>)
    requires i < |l.tensors| && Readable(l.tensors[i]) && |raw| == 5 + l.numClasses
    requires InGrid(c, l.tensors[i].numBBoxes, l.tensors[i].gridSizeX, l.tensors[i].gridSizeY)
    requires KernelOf(l, i) == YoloNc ==> 0.0 <= raw[0] <= 1.0 && 0.0 <= raw[1] <= 1.0
    requires Reach(KernelOf(l, i), l.tensors[i]) >= 0.0
    ensures var (t, half) := (l.tensors[i], Reach(KernelOf(l, i), l.tensors[i]) / 2.0);
      && Near(BoxField(m, l, i, c, raw, 0), half, c.x, l.netWidth, t.gridSizeX)
      && Near(BoxField(m, l, i, c, raw, 1), half, c.y, l.netHeight, t.gridSizeY)
  {
    hide Sigmoid, Near, Centre, RegionCentre;
    var t := l.tensors[i];
    SigmoidInUnit(m, raw[0]);
    SigmoidInUnit(m, raw[1]);
    if KernelOf(l, i) == Region {
      RegionCentreIsNear(Sigmoid(m, raw[0]), c.x, l.netWidth, t.gridSizeX);
      RegionCentreIsNear(Sigmoid(m, raw[1]), c.y, l.netHeight, t.gridSizeY);
    } else {
      var (u, v) := if KernelOf(l, i) == YoloNc then (raw[0], raw[1]) else (Sigmoid(m, raw[0]), Sigmoid(m, raw[1]));
      CentreIsNear(u, t.scaleXY, c.x, l.netWidth, t.gridSizeX);
      CentreIsNear(v, t.scaleXY, c.y, l.netHeight, t.gridSizeY);
    }
  }

  lemma RegionSizePositive(e: real, anchor: real, net: nat, grid: nat)
    requires e > 0.0 && anchor > 0.0 && net > 0 && grid > 0
    ensures RegionSize(e, anchor, net, grid) > 0.0
  {
    ProductPositive(e, anchor);
    ProductPositive(e * anchor, net as real);
    PositiveQuotient(e * anchor * net as real, grid as real);
  }

  // The anchor of field f of a box.
  function AnchorIndex(l: Layer, i: nat, c: Cell, f: nat): (k: nat)
    requires i < |l.tensors| && Readable(l.tensors[i]) && 2 <= f < 4 && c.z < l.tensors[i].numBBoxes
    ensures k < |l.tensors[i].anchors|
  {
    if KernelOf(l, i) == Region then c.z * 2 + f - 2 else l.tensors[i].mask[c.z] * 2 + f - 2
  }

  /** Positive anchors give boxes of positive size, whatever the network says. */
  lemma SizePositive(m: Math, l: Layer, i: nat, c: Cell, raw: seq<real>, f: nat)
    requires i < |l.tensors| && Readable(l.tensors[i]) && |raw| == 5 + l.numClasses && 2 <= f < 4
    requires InGrid(c, l.tensors[i].numBBoxes, l.tensors[i].gridSizeX, l.tensors[i].gridSizeY)
    requires KernelOf(l, i) != YoloNc && l.netWidth > 0 && l.netHeight > 0
    requires l.tensors[i].anchors[AnchorIndex(l, i, c, f)] > 0.0
    ensures BoxField(m, l, i, c, raw, f) > 0.0
  {
    hide RegionSize;
    var (t, e) := (l.tensors[i], m.exp(raw[f]));
    var anchor := t.anchors[AnchorIndex(l, i, c, f)];
    if KernelOf(l, i) == Region {
      if f == 2 { RegionSizePositive(e, anchor, l.netWidth, t.gridSizeX); }
      else { RegionSizePositive(e, anchor, l.netHeight, t.gridSizeY); }
    } else {
      ProductPositive(e, anchor);
    }
  }

  lemma ProductPositive(a: real, b: real)
    requires a > 0.0 && b > 0.0
    ensures a * b > 0.0
  {
  }

  lemma {:induction false} TermBelowSum(p: seq<real>, n: nat, k: nat)
    requires k < n <= |p| && forall j | 0 <= j < |p| :: p[j] > 0.0
    ensures p[k] <= Sum(p, n)
  {
    SumPositive(p, n - 1);
    if k < n - 1 { TermBelowSum(p, n - 1, k); }
  }

  /** Outside the new-coordinates kernel a score is a product of probabilities. */
  lemma ScoreInUnit(m: Math, kernel: Kernel, raw: seq<real>)
    requires |raw| > 5 && kernel != YoloNc
    ensures 0.0 < Choice(m, kernel, raw).prob <= 1.0 && 0.0 < Objectness(m, kernel, raw) < 1.0
    ensures 0.0 < Choice(m, kernel, raw).prob * Objectness(m, kernel, raw) < 1.0
  {
    hide Sigmoid, Softmax, Sum;
    ChoiceExists(m, kernel, raw);
    SigmoidInUnit(m, raw[4]);
    var w := Choice(m, kernel, raw);
    SigmoidInUnit(m, raw[5 + w.index]);
    SoftmaxIsDistribution(m, raw[5..]);
    TermBelowSum(Softmax(m, raw[5..]), |raw| - 5, w.index);
    BelowOne(w.prob, Objectness(m, kernel, raw));
  }

  lemma BelowOne(a: real, b: real)
    requires 0.0 < a <= 1.0 && 0.0 < b < 1.0
    ensures 0.0 < a * b < 1.0
  {
    ProductPositive(a, b);
    assert (1.0 - a) * b >= 0.0;
  }
}
