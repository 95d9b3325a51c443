/** What one enqueue computes, in terms of the numbers in its input tensors: where each number is read, what the box,
    the score and the class of a cell are, and where they end up. Functions of the kernels appear here only as the
    values that satisfy their defining equations. */
module YoloMeaning {
  import opened YoloTensor
  import opened GridArithmetic
  import opened YoloSlots
  import opened YoloLayout
  import opened YoloValues
  import opened YoloJob

  // ---------- Where a thread reads and writes ----------

  // The place of (b, z, k, y, x) in a tensor of shape [batches, n, planes, gy, gx].
  function RowMajor(b: nat, z: nat, k: nat, c: Cell, n: nat, planes: nat, gy: nat, gx: nat): nat {
    (((b * n + z) * planes + k) * gy + c.y) * gx + c.x
  }

  lemma RowMajorIs(b: nat, k: nat, c: Cell, n: nat, planes: nat, gy: nat, gx: nat)
    ensures RowMajor(b, c.z, k, c, n, planes, gy, gx)
         == b * (n * planes * gy * gx) + (c.y * gx + c.x + gx * gy * (c.z * planes + k))
  {
    var (q, r) := (b * n * planes, c.z * planes + k);
    assert (b * n + c.z) * planes + k == q + r by { Distribute(b * n, c.z, planes); }
    Distribute(q, r, gy);
    Distribute((q + r) * gy, c.y, gx);
    Distribute(q * gy, r * gy, gx);
    assert q * gy * gx == b * (n * planes * gy * gx) by { FourFactors(b, n, planes, gy, gx); }
    assert r * gy * gx == gx * gy * r by { MulAssoc(r, gy, gx); }
  }

  lemma Distribute(a: nat, b: nat, c: nat)
    ensures (a + b) * c == a * c + b * c
  {
  }

  lemma FourFactors(b: nat, n: nat, p: nat, y: nat, x: nat)
    ensures b * n * p * y * x == b * (n * p * y * x)
  {
    assert b * n * p == b * (n * p) by { MulAssoc(b, n, p); }
    assert b * (n * p) * y == b * (n * p * y) by { MulAssoc(b, n * p, y); }
    assert b * (n * p * y) * x == b * (n * p * y * x) by { MulAssoc(b, n * p * y, x); }
  }

  // The number a thread reads for field k of its cell.
  ghost function Input(j: Job, t: Thread, k: nat): real
    requires j.Valid() && j.Has(t) && k < 5 + j.layer.numClasses
  {
    j.Raw(t)[k]
  }

  /** An input is a row-major tensor of shape [batches, boxes, 5 + classes, gridSizeY, gridSizeX], and a thread reads
      field k of its box at its row and column, in its batch. */
  lemma InputIs(j: Job, t: Thread, k: nat)
    requires j.Valid() && j.Has(t) && k < 5 + j.layer.numClasses
    ensures var i := j.layer.tensors[t.tensor];
      var a := RowMajor(t.batch, t.cell.z, k, t.cell, i.numBBoxes, 5 + j.layer.numClasses, i.gridSizeY, i.gridSizeX);
      a < |j.inputs[t.tensor]| && Input(j, t, k) == j.inputs[t.tensor][a]
  {
    hide RowMajor, InGrid;
    var i := j.layer.tensors[t.tensor];
    RowMajorIs(t.batch, k, t.cell, i.numBBoxes, 5 + j.layer.numClasses, i.gridSizeY, i.gridSizeX);
    j.IndexBound(t, k);
  }

  /** The step from a cell to the next one in its row, in its column and in its grid, whatever the shape: one slot,
      gridSizeY slots, and a grid of slots. */
  lemma CountSteps(z: nat, y: nat, x: nat, gx: nat, gy: nat)
    ensures Count(Cell(0, 0, 0), gx, gy) == 0
    ensures Count(Cell(z, y, x + 1), gx, gy) == Count(Cell(z, y, x), gx, gy) + 1
    ensures Count(Cell(z, y + 1, x), gx, gy) == Count(Cell(z, y, x), gx, gy) + gy
    ensures Count(Cell(z + 1, y, x), gx, gy) == Count(Cell(z, y, x), gx, gy) + gy * gx
  {
    assert (z + 1) * gx * gy == z * gx * gy + gy * gx by { MulAssoc(z, gx, gy); MulAssoc(z + 1, gx, gy); }
  }

  /** The step from a tensor to the next one and from a batch to the next one. */
  lemma SlotSteps<F>(ts: Tensors<F>, b: nat, i: nat, c: Cell)
    requires i < |ts|
    ensures Slot(ts, Thread(b, i, c))
         == Slot(ts, Thread(b, i, Cell(0, 0, 0))) + Count(c, ts[i].gridSizeX, ts[i].gridSizeY)
    ensures Slot(ts, Thread(0, 0, Cell(0, 0, 0))) == 0
    ensures i + 1 < |ts| ==>
      Slot(ts, Thread(b, i + 1, Cell(0, 0, 0)))
        == Slot(ts, Thread(b, i, Cell(0, 0, 0))) + ts[i].gridSizeX * ts[i].gridSizeY * ts[i].numBBoxes
    ensures i + 1 == |ts| ==>
      Slot(ts, Thread(b + 1, 0, Cell(0, 0, 0)))
        == Slot(ts, Thread(b, i, Cell(0, 0, 0))) + ts[i].gridSizeX * ts[i].gridSizeY * ts[i].numBBoxes
  {
    MulAssoc(ts[i].numBBoxes, ts[i].gridSizeY, ts[i].gridSizeX);
    Distribute(b, 1, OutputSize(ts));
  }

  // ---------- The box ----------

  // s is the logistic of x: one part of it to e^-x parts of the rest.
  ghost predicate Logistic(m: Math, x: real, s: real) { s * (1.0 + m.exp(-x)) == 1.0 }

  // The new-coordinates kernel is given activated fields; the other two apply the logistic.
  ghost predicate Activated(m: Math, l: Layer, i: nat, x: real, s: real)
    requires i < |l.tensors|
  {
    if |l.tensors[i].mask| > 0 && l.newCoords != 0 then s == x else Logistic(m, x, s)
  }

  lemma SigmoidIsLogistic(m: Math, x: real, s: real)
    ensures Logistic(m, x, s) <==> s == Sigmoid(m, x)
  {
    InverseIs(1.0 + m.exp(-x), s);
  }

  lemma InverseIs(d: real, s: real)
    requires d > 0.0
    ensures s * d == 1.0 <==> s == 1.0 / d
  {
    assert 1.0 / d * d == 1.0;
    if s * d == 1.0 { assert (s - 1.0 / d) * d == 0.0; }
  }

  lemma Quotient(p: real, q: real, r: real)
    requires q > 0.0 && r == p / q
    ensures r * q == p
  {
  }

  lemma CentreIs(v: real, alpha: real, cell: nat, net: nat, grid: nat)
    requires grid > 0
    ensures Centre(v, alpha, cell, net, grid) * grid as real == (cell as real + 0.5 + (v - 0.5) * alpha) * net as real
  {
    var at := v * alpha + -0.5 * (alpha - 1.0) + cell as real;
    assert at == cell as real + 0.5 + (v - 0.5) * alpha;
    Quotient(at * net as real, grid as real, Centre(v, alpha, cell, net, grid));
  }

  lemma RegionCentreIs(v: real, cell: nat, net: nat, grid: nat)
    requires grid > 0
    ensures RegionCentre(v, cell, net, grid) * grid as real == (cell as real + 0.5 + (v - 0.5) * 1.0) * net as real
  {
    assert v + cell as real == cell as real + 0.5 + (v - 0.5) * 1.0;
    Quotient((v + cell as real) * net as real, grid as real, RegionCentre(v, cell, net, grid));
  }

  // A coordinate x of a centre: in a grid of n cells along the network's side, the middle of the cell and alpha times
  // the offset u - 1/2.
  ghost predicate CentredAt(x: real, cell: nat, u: real, alpha: real, side: nat, n: nat) {
    x * n as real == (cell as real + 0.5 + (u - 0.5) * alpha) * side as real
  }

  /** The centre of a box: x from field 0 and the column, y from field 1 and the row; an offset of one half is the
      middle of the cell, and scale_x_y widens the offsets, except in the region kernel. */
  lemma CentreExactly(m: Math, l: Layer, i: nat, c: Cell, raw: seq<real>, u: real, v: real)
    requires i < |l.tensors| && Readable(l.tensors[i]) && |raw| == 5 + l.numClasses
    requires InGrid(c, l.tensors[i].numBBoxes, l.tensors[i].gridSizeX, l.tensors[i].gridSizeY)
    requires Activated(m, l, i, raw[0], u) && Activated(m, l, i, raw[1], v)
    ensures var t := l.tensors[i];
      var alpha := if |t.mask| == 0 then 1.0 else t.scaleXY;
      && CentredAt(BoxField(m, l, i, c, raw, 0), c.x, u, alpha, l.netWidth, t.gridSizeX)
      && CentredAt(BoxField(m, l, i, c, raw, 1), c.y, v, alpha, l.netHeight, t.gridSizeY)
  {
    hide Logistic, Sigmoid, Centre, RegionCentre, RegionSize;
    var t := l.tensors[i];
    SigmoidIsLogistic(m, raw[0], u);
    SigmoidIsLogistic(m, raw[1], v);
    if |t.mask| == 0 {
      RegionCentreIs(u, c.x, l.netWidth, t.gridSizeX);
      RegionCentreIs(v, c.y, l.netHeight, t.gridSizeY);
    } else {
      CentreIs(u, t.scaleXY, c.x, l.netWidth, t.gridSizeX);
      CentreIs(v, t.scaleXY, c.y, l.netHeight, t.gridSizeY);
    }
  }

  // How field x of a box changes the size of its anchor.
  ghost function Growth(m: Math, l: Layer, i: nat, x: real): real
    requires i < |l.tensors|
  {
    if |l.tensors[i].mask| > 0 && l.newCoords != 0 then m.pow(2.0 * x, 2.0) else m.exp(x)
  }

  // A size in pixels, and one whose anchor is in cells of a grid of n along the network's side.
  ghost predicate GrownFrom(x: real, growth: real, anchor: real) { x == growth * anchor }

  ghost predicate GrownInCells(x: real, growth: real, anchor: real, side: nat, n: nat) {
    x * n as real == growth * anchor * side as real
  }

  lemma MaskedSize(m: Math, l: Layer, i: nat, c: Cell, raw: seq<real>, f: nat)
    requires i < |l.tensors| && Readable(l.tensors[i]) && |raw| == 5 + l.numClasses && 2 <= f < 4
    requires InGrid(c, l.tensors[i].numBBoxes, l.tensors[i].gridSizeX, l.tensors[i].gridSizeY)
    requires |l.tensors[i].mask| > 0
    ensures var t := l.tensors[i];
      GrownFrom(BoxField(m, l, i, c, raw, f), Growth(m, l, i, raw[f]), t.anchors[2 * t.mask[c.z] + f - 2])
  {
    hide Sigmoid, Centre, RegionCentre, RegionSize;
  }

  lemma UnmaskedSize(m: Math, l: Layer, i: nat, c: Cell, raw: seq<real>, f: nat)
    requires i < |l.tensors| && Readable(l.tensors[i]) && |raw| == 5 + l.numClasses && 2 <= f < 4
    requires InGrid(c, l.tensors[i].numBBoxes, l.tensors[i].gridSizeX, l.tensors[i].gridSizeY)
    requires |l.tensors[i].mask| == 0
    ensures var (t, g) := (l.tensors[i], Growth(m, l, i, raw[f]));
      BoxField(m, l, i, c, raw, f)
      == if f == 2 then RegionSize(g, t.anchors[2 * c.z], l.netWidth, t.gridSizeX)
         else RegionSize(g, t.anchors[2 * c.z + 1], l.netHeight, t.gridSizeY)
  {
    hide Sigmoid, Centre, RegionCentre, RegionSize;
  }

  lemma RegionSizeIs(e: real, anchor: real, net: nat, grid: nat)
    requires grid > 0
    ensures GrownInCells(RegionSize(e, anchor, net, grid), e, anchor, net, grid)
  {
    Quotient(e * anchor * net as real, grid as real, RegionSize(e, anchor, net, grid));
  }

  /** The size of a box: the width from field 2 and the first number of the anchor pair, the height from field 3 and
      the second. With masks the pair is that of the mask and in pixels; without, it is that of the box and in cells. */
  lemma SizeExactly(m: Math, l: Layer, i: nat, c: Cell, raw: seq<real>)
    requires i < |l.tensors| && Readable(l.tensors[i]) && |raw| == 5 + l.numClasses
    requires InGrid(c, l.tensors[i].numBBoxes, l.tensors[i].gridSizeX, l.tensors[i].gridSizeY)
    ensures var (t, w, h) := (l.tensors[i], BoxField(m, l, i, c, raw, 2), BoxField(m, l, i, c, raw, 3));
      if |t.mask| > 0 then
        && GrownFrom(w, Growth(m, l, i, raw[2]), t.anchors[2 * t.mask[c.z]])
        && GrownFrom(h, Growth(m, l, i, raw[3]), t.anchors[2 * t.mask[c.z] + 1])
      else
        && GrownInCells(w, Growth(m, l, i, raw[2]), t.anchors[2 * c.z], l.netWidth, t.gridSizeX)
        && GrownInCells(h, Growth(m, l, i, raw[3]), t.anchors[2 * c.z + 1], l.netHeight, t.gridSizeY)
  {
    hide BoxField, Growth, RegionSize, GrownFrom, GrownInCells;
    var t := l.tensors[i];
    if |t.mask| > 0 {
      MaskedSize(m, l, i, c, raw, 2);
      MaskedSize(m, l, i, c, raw, 3);
    } else {
      UnmaskedSize(m, l, i, c, raw, 2);
      UnmaskedSize(m, l, i, c, raw, 3);
      RegionSizeIs(Growth(m, l, i, raw[2]), t.anchors[2 * c.z], l.netWidth, t.gridSizeX);
      RegionSizeIs(Growth(m, l, i, raw[3]), t.anchors[2 * c.z + 1], l.netHeight, t.gridSizeY);
    }
  }

  /** Field f of a box depends on field f of the cell alone. */
  lemma FieldsAreSeparate(m: Math, l: Layer, i: nat, c: Cell, raw: seq<real>, other: seq<real>, f: nat)
    requires i < |l.tensors| && Readable(l.tensors[i]) && |raw| == |other| == 5 + l.numClasses && f < 4
    requires InGrid(c, l.tensors[i].numBBoxes, l.tensors[i].gridSizeX, l.tensors[i].gridSizeY)
    requires raw[f] == other[f]
    ensures BoxField(m, l, i, c, raw, f) == BoxField(m, l, i, c, other, f)
  {
    hide Sigmoid, Centre, RegionCentre, RegionSize, Growth, BoxField;
    if f < 2 {
      SeparateCentre(m, l, i, c, raw, other, f);
    } else if |l.tensors[i].mask| > 0 {
      MaskedSize(m, l, i, c, raw, f);
      MaskedSize(m, l, i, c, other, f);
    } else {
      UnmaskedSize(m, l, i, c, raw, f);
      UnmaskedSize(m, l, i, c, other, f);
    }
  }

  lemma SeparateCentre(m: Math, l: Layer, i: nat, c: Cell, raw: seq<real>, other: seq<real>, f: nat)
    requires i < |l.tensors| && Readable(l.tensors[i]) && |raw| == |other| == 5 + l.numClasses && f < 2
    requires InGrid(c, l.tensors[i].numBBoxes, l.tensors[i].gridSizeX, l.tensors[i].gridSizeY)
    requires raw[f] == other[f]
    ensures BoxField(m, l, i, c, raw, f) == BoxField(m, l, i, c, other, f)
  {
    hide Sigmoid, Centre, RegionCentre, RegionSize;
  }

  /** Where its field calls for no growth, a size with masks is the anchor. */
  lemma AnchorIsUnit(m: Math, l: Layer, i: nat, c: Cell, raw: seq<real>, f: nat)
    requires i < |l.tensors| && Readable(l.tensors[i]) && |raw| == 5 + l.numClasses && 2 <= f < 4
    requires InGrid(c, l.tensors[i].numBBoxes, l.tensors[i].gridSizeX, l.tensors[i].gridSizeY)
    requires |l.tensors[i].mask| > 0 && Growth(m, l, i, raw[f]) == 1.0
    ensures BoxField(m, l, i, c, raw, f) == l.tensors[i].anchors[2 * l.tensors[i].mask[c.z] + f - 2]
  {
    hide BoxField, Growth;
    MaskedSize(m, l, i, c, raw, f);
  }

  // ---------- The score and the class ----------

  // n is x without its fraction.
  ghost predicate IsTruncated(x: real, n: int) {
    if x >= 0.0 then n as real <= x < n as real + 1.0 else n as real - 1.0 < x <= n as real
  }

  lemma TruncateIs(x: real)
    ensures IsTruncated(x, Truncate(x))
  {
  }

  // The greatest of the truncated values.
  ghost predicate IsLargest(vals: seq<real>, top: int) {
    && (exists k | 0 <= k < |vals| :: IsTruncated(vals[k], top))
    && forall k, n: int | 0 <= k < |vals| && IsTruncated(vals[k], n) :: n <= top
  }

  lemma TruncatedOnce(x: real, n: int)
    ensures IsTruncated(x, n) <==> n == Truncate(x)
  {
    TruncateIs(x);
  }

  lemma {:induction false} LargestIs(vals: seq<real>) returns (top: int)
    requires |vals| > 0
    ensures IsLargest(vals, top) && Largest(vals) == top as real
  {
    hide Truncate, IsTruncated;
    var n := |vals| - 1;
    forall k, t: int | 0 <= k < |vals| ensures IsTruncated(vals[k], t) <==> t == Truncate(vals[k]) {
      TruncatedOnce(vals[k], t);
    }
    top := Truncate(vals[n]);
    assert IsTruncated(vals[n], top);
    if n > 0 {
      var rest := LargestIs(vals[..n]);
      var k :| 0 <= k < n && IsTruncated(vals[..n][k], rest);
      assert IsTruncated(vals[k], rest);
      forall k | 0 <= k < n ensures Truncate(vals[k]) <= rest {
        assert IsTruncated(vals[..n][k], Truncate(vals[k]));
      }
      if rest >= top { top := rest; }
    }
  }

  lemma LargestOnce(vals: seq<real>, a: int, b: int)
    requires IsLargest(vals, a) && IsLargest(vals, b)
    ensures a == b
  {
    hide IsTruncated;
  }

  // Probabilities in proportion to the exponentials of the values less a constant.
  ghost predicate InProportion(m: Math, vals: seq<real>, top: real, p: seq<real>)
    requires |p| == |vals|
  {
    forall k, l | 0 <= k < |p| && 0 <= l < |p| :: p[k] * m.exp(vals[l] - top) == p[l] * m.exp(vals[k] - top)
  }

  // The distribution the region kernel promises: in proportion to e^value, adding up to one.
  ghost predicate IsSoftmax(m: Math, vals: seq<real>, p: seq<real>) {
    && |p| == |vals|
    && (|p| > 0 ==> Sum(p, |p|) == 1.0)
    && forall top: int | IsLargest(vals, top) :: InProportion(m, vals, top as real, p)
  }

  lemma {:induction false} CrossSum(p: seq<real>, es: seq<real>, k: nat, n: nat)
    requires |p| == |es| && k < |p| && n <= |p| && forall l | 0 <= l < |p| :: p[k] * es[l] == p[l] * es[k]
    ensures p[k] * Sum(es, n) == Sum(p, n) * es[k]
  {
    if n > 0 { CrossSum(p, es, k, n - 1); }
  }

  lemma QuotientIs(a: real, s: real, e: real)
    requires s > 0.0 && a * s == e
    ensures a == e / s
  {
    InverseProduct(a, s);
  }

  lemma InverseProduct(a: real, s: real)
    requires s > 0.0
    ensures a * s / s == a
  {
  }

  lemma ExponentialIs(m: Math, vals: seq<real>, k: nat, top: int)
    requires k < |vals| && Largest(vals) == top as real
    ensures Exponentials(m, vals)[k] == m.exp(vals[k] - top as real)
  {
    hide Largest;
    assert vals[k] / TEMP == vals[k] && Largest(vals) / TEMP == top as real;
  }

  /** The numbers in the softmax cells are the one distribution in proportion to e^(value - largest). */
  lemma SoftmaxExactly(m: Math, vals: seq<real>, p: seq<real>)
    ensures IsSoftmax(m, vals, p) <==> p == Softmax(m, vals)
  {
    if |vals| == 0 { NoSoftmax(m, p); } else { SomeSoftmax(m, vals, p); }
  }

  lemma NoSoftmax(m: Math, p: seq<real>)
    ensures IsSoftmax(m, [], p) <==> p == Softmax(m, [])
  {
  }

  lemma SomeSoftmax(m: Math, vals: seq<real>, p: seq<real>)
    requires |vals| > 0
    ensures IsSoftmax(m, vals, p) <==> p == Softmax(m, vals)
  {
    hide IsLargest, InProportion, Sum, Softmax, Largest;
    var top := LargestIs(vals);
    SoftmaxInProportion(m, vals, top);
    SoftmaxIsDistribution(m, vals);
    forall other: int | IsLargest(vals, other) ensures other == top { LargestOnce(vals, other, top); }
    if IsSoftmax(m, vals, p) { ProportionIsSoftmax(m, vals, p, top); }
  }

  lemma ProportionIsSoftmax(m: Math, vals: seq<real>, p: seq<real>, top: int)
    requires |p| == |vals| > 0 && Largest(vals) == top as real
    requires Sum(p, |p|) == 1.0 && InProportion(m, vals, top as real, p)
    ensures p == Softmax(m, vals)
  {
    hide Sum, Largest, Exponentials;
    var es := Exponentials(m, vals);
    SumPositive(es, |es|);
    forall k | 0 <= k < |vals| ensures es[k] == m.exp(vals[k] - top as real) { ExponentialIs(m, vals, k, top); }
    forall k | 0 <= k < |p| ensures p[k] == Softmax(m, vals)[k] {
      CrossSum(p, es, k, |p|);
      QuotientIs(p[k], Sum(es, |es|), es[k]);
    }
  }

  lemma SoftmaxInProportion(m: Math, vals: seq<real>, top: int)
    requires |vals| > 0 && Largest(vals) == top as real
    ensures InProportion(m, vals, top as real, Softmax(m, vals))
  {
    hide Sum, Largest, Exponentials, Softmax;
    var p := Softmax(m, vals);
    forall k, l | 0 <= k < |p| && 0 <= l < |p|
      ensures p[k] * m.exp(vals[l] - top as real) == p[l] * m.exp(vals[k] - top as real)
    {
      ProportionAt(m, vals, top, k, l);
    }
  }

  lemma SoftmaxAt(m: Math, vals: seq<real>, top: int, k: nat)
    requires k < |vals| && Largest(vals) == top as real
    ensures var s := Sum(Exponentials(m, vals), |vals|);
      s > 0.0 && Softmax(m, vals)[k] == m.exp(vals[k] - top as real) / s
  {
    hide Sum, Largest, Exponentials;
    SumPositive(Exponentials(m, vals), |vals|);
    ExponentialIs(m, vals, k, top);
  }

  lemma ProportionAt(m: Math, vals: seq<real>, top: int, k: nat, l: nat)
    requires k < |vals| && l < |vals| && Largest(vals) == top as real
    ensures Softmax(m, vals)[k] * m.exp(vals[l] - top as real) == Softmax(m, vals)[l] * m.exp(vals[k] - top as real)
  {
    hide Sum, Largest, Exponentials, Softmax;
    SoftmaxAt(m, vals, top, k);
    SoftmaxAt(m, vals, top, l);
    SameProduct(m.exp(vals[k] - top as real), m.exp(vals[l] - top as real), Sum(Exponentials(m, vals), |vals|));
  }

  lemma SameProduct(a: real, b: real, s: real)
    requires s > 0.0
    ensures a / s * b == b / s * a
  {
  }

  // The class probabilities a thread chooses from.
  ghost predicate AreProbabilities(m: Math, l: Layer, i: nat, raw: seq<real>, p: seq<real>)
    requires i < |l.tensors| && |raw| >= 5
  {
    if |l.tensors[i].mask| == 0 then IsSoftmax(m, raw[5..], p)
    else |p| == |raw| - 5 && forall k | 0 <= k < |p| :: Activated(m, l, i, raw[5 + k], p[k])
  }

  lemma ProbabilitiesAre(m: Math, l: Layer, i: nat, raw: seq<real>, p: seq<real>)
    requires i < |l.tensors| && |raw| >= 5
    ensures AreProbabilities(m, l, i, raw, p) <==> p == ClassProbs(m, KernelOf(l, i), raw, Softmax(m, raw[5..]))
  {
    hide Logistic, Sigmoid, IsSoftmax, Softmax;
    SoftmaxExactly(m, raw[5..], p);
    forall k | 0 <= k < |p| && |p| == |raw| - 5
      ensures Logistic(m, raw[5 + k], p[k]) <==> p[k] == Sigmoid(m, raw[5 + k])
    {
      SigmoidIsLogistic(m, raw[5 + k], p[k]);
    }
    if |l.tensors[i].mask| == 0 { assert ClassProbs(m, Region, raw, Softmax(m, raw[5..])) == Softmax(m, raw[5..]); }
  }

  // Class k has the first greatest positive probability; -1 if none is positive.
  ghost predicate IsWinner(p: seq<real>, k: int) {
    if k == -1 then forall l | 0 <= l < |p| :: p[l] <= 0.0
    else 0 <= k < |p| && p[k] > 0.0 && forall l | 0 <= l < |p| :: p[l] <= p[k] && (l < k ==> p[l] < p[k])
  }

  lemma BestIsWinner(p: seq<real>)
    ensures IsWinner(p, Best(p).index) && Best(p).prob == if Best(p).index == -1 then 0.0 else p[Best(p).index]
  {
  }

  /** The class of a thread is the first of greatest positive probability and its score that probability times the
      objectness, which is field 4; without a positive probability they are -1 and zero. */
  lemma ScoreExactly(j: Job, t: Thread, o: real, p: seq<real>) returns (k: int)
    requires j.Valid() && j.Has(t)
    requires Activated(j.math, j.layer, t.tensor, Input(j, t, 4), o)
    requires AreProbabilities(j.math, j.layer, t.tensor, j.Raw(t), p)
    ensures |p| == j.layer.numClasses && IsWinner(p, k) && j.Result(t, 5) == k as real
    ensures j.Result(t, 4) == if k == -1 then 0.0 else p[k] * o
  {
    hide Logistic, Sigmoid, InGrid, ClassProbs, Softmax, AreProbabilities, BoxField, Best, IsWinner, Job.Raw;
    ProbabilitiesAre(j.math, j.layer, t.tensor, j.Raw(t), p);
    SigmoidIsLogistic(j.math, Input(j, t, 4), o);
    BestIsWinner(p);
    k := Best(p).index;
  }

  // ---------- Where it ends up ----------

  /** The results of a thread are at its slot of the finished buffers, four fields to a box. */
  lemma ReferenceAt(j: Job, t: Thread)
    requires j.Valid() && ShapesOk(j.layer.tensors) && j.Has(t)
    ensures var (s, r) := (Slot(j.layer.tensors, t), Reference(j));
      && 4 * s + 3 < |r.boxes| && s < |r.scores| == |r.classes|
      && r.boxes[4 * s] == j.Result(t, 0) && r.boxes[4 * s + 1] == j.Result(t, 1)
      && r.boxes[4 * s + 2] == j.Result(t, 2) && r.boxes[4 * s + 3] == j.Result(t, 3)
      && r.scores[s] == j.Result(t, 4) && r.classes[s] == j.Result(t, 5)
  {
    hide ShapesOk, InGrid, Slot, OutputSize, Job.Box, Job.Score, Job.Class, ThreadAt;
    SlotBound(j.layer.tensors, j.batches, t);
    var s := Slot(j.layer.tensors, t);
    var u := ThreadAt(j.layer.tensors, j.batches, s);
    if u != t { j.SlotsDiffer(t, u); }
    forall f: nat | f < 4 ensures FieldAt(s, f) / 4 == s && FieldAt(s, f) % 4 == f { }
    assert FieldAt(s, 0) == 4 * s && FieldAt(s, 1) == 4 * s + 1;
    assert FieldAt(s, 2) == 4 * s + 2 && FieldAt(s, 3) == 4 * s + 3;
  }
}
