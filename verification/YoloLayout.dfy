/** The output buffers of one `enqueue`: batches of m_OutputSize slots, in each the tensors one after the
    other, in each tensor one slot per launched cell. */
module YoloLayout {
  import opened YoloTensor
  import opened GridArithmetic
  import opened YoloSlots

  type Tensors<F> = seq<TensorInfo<F>>

  function SlotsOf<F>(t: TensorInfo<F>): nat { t.numBBoxes * t.gridSizeY * t.gridSizeX }

  // lastInputSize when the loop of enqueue reaches tensor i.
  function Offset<F>(ts: Tensors<F>, i: nat): nat
    requires i <= |ts|
  {
    if i == 0 then 0 else Offset(ts, i - 1) + SlotsOf(ts[i - 1])
  }

  function OutputSize<F>(ts: Tensors<F>): nat { Offset(ts, |ts|) }

  // The sum that buildYoloNetwork passes to the plugin.
  method BuildOutputSize<F>(ts: Tensors<F>) returns (outputSize: nat)
    ensures outputSize == OutputSize(ts)
  {
    outputSize := 0;
    for j := 0 to |ts|
      invariant outputSize == Offset(ts, j)
    {
      outputSize := outputSize + ts[j].numBBoxes * ts[j].gridSizeY * ts[j].gridSizeX;
    }
  }

  lemma {:induction false} OffsetMono<F>(ts: Tensors<F>, i: nat, j: nat)
    requires i <= j <= |ts|
    ensures Offset(ts, i) <= Offset(ts, j)
    ensures i < j ==> Offset(ts, i) + SlotsOf(ts[i]) <= Offset(ts, j)
    decreases j
  {
    if i < j { OffsetMono(ts, i, j - 1); }
  }

  // ---------- Threads and slots ----------

  datatype Thread = Thread(batch: nat, tensor: nat, cell: Cell)

  predicate Launched<F>(ts: Tensors<F>, batches: nat, t: Thread) {
    && t.batch < batches && t.tensor < |ts|
    && InGrid(t.cell, ts[t.tensor].numBBoxes, ts[t.tensor].gridSizeX, ts[t.tensor].gridSizeY)
  }

  // The slot within the batch, and within the whole buffer.
  function LocalSlot<F>(ts: Tensors<F>, t: Thread): nat
    requires t.tensor < |ts|
  {
    Offset(ts, t.tensor) + Count(t.cell, ts[t.tensor].gridSizeX, ts[t.tensor].gridSizeY)
  }

  function Slot<F>(ts: Tensors<F>, t: Thread): nat
    requires t.tensor < |ts|
  {
    t.batch * OutputSize(ts) + LocalSlot(ts, t)
  }

  predicate TensorOk<F>(t: TensorInfo<F>) { ShapeOk(t.numBBoxes, t.gridSizeX, t.gridSizeY) }

  predicate ShapesOk<F>(ts: Tensors<F>) { forall i | 0 <= i < |ts| :: TensorOk(ts[i]) }

  lemma LocalSlotBound<F>(ts: Tensors<F>, batches: nat, t: Thread)
    requires Launched(ts, batches, t) && TensorOk(ts[t.tensor])
    ensures Count(t.cell, ts[t.tensor].gridSizeX, ts[t.tensor].gridSizeY) < SlotsOf(ts[t.tensor])
    ensures Offset(ts, t.tensor) <= LocalSlot(ts, t) < Offset(ts, t.tensor + 1) <= OutputSize(ts)
  {
    hide Count;
    var (n, gx, gy) := (ts[t.tensor].numBBoxes, ts[t.tensor].gridSizeX, ts[t.tensor].gridSizeY);
    if n * gx * gy == 0 {
      GridNotEmpty(t.cell, n, gx, gy);
    } else {
      CountIsRowMajor(t.cell, n, gx, gy);
    }
    MulAssoc(n, gx, gy);
    MulAssoc(n, gy, gx);
    OffsetMono(ts, t.tensor + 1, |ts|);
  }

  lemma GridNotEmpty(c: Cell, n: nat, gx: nat, gy: nat)
    requires InGrid(c, n, gx, gy)
    ensures n * gx * gy > 0
  {
  }

  lemma SlotBound<F>(ts: Tensors<F>, batches: nat, t: Thread)
    requires ShapesOk(ts) && Launched(ts, batches, t)
    ensures Slot(ts, t) < batches * OutputSize(ts)
  {
    hide LocalSlot;
    LocalSlotBound(ts, batches, t);
    PairBound(t.batch, batches, LocalSlot(ts, t), OutputSize(ts));
  }

  lemma SlotUnique<F>(ts: Tensors<F>, batches: nat, t: Thread, u: Thread)
    requires ShapesOk(ts) && Launched(ts, batches, t) && Launched(ts, batches, u) && Slot(ts, t) == Slot(ts, u)
    ensures t == u
  {
    hide Count;
    LocalSlotBound(ts, batches, t);
    LocalSlotBound(ts, batches, u);
    PairUnique(t.batch, LocalSlot(ts, t), u.batch, LocalSlot(ts, u), OutputSize(ts));
    if t.tensor < u.tensor { OffsetMono(ts, t.tensor + 1, u.tensor); }
    if u.tensor < t.tensor { OffsetMono(ts, u.tensor + 1, t.tensor); }
    var (n, gx, gy) := (ts[t.tensor].numBBoxes, ts[t.tensor].gridSizeX, ts[t.tensor].gridSizeY);
    GridNotEmpty(t.cell, n, gx, gy);
    CountIsInjective(t.cell, u.cell, n, gx, gy);
  }

  // The tensor a slot belongs to, and the thread that writes it.
  function TensorAt<F>(ts: Tensors<F>, s: nat, k: nat): (i: nat)
    requires k <= |ts| && s < Offset(ts, k)
    ensures i < k && Offset(ts, i) <= s < Offset(ts, i + 1)
  {
    if s >= Offset(ts, k - 1) then k - 1 else TensorAt(ts, s, k - 1)
  }

  predicate SlotExists<F>(ts: Tensors<F>, batches: nat, s: nat) { s < batches * OutputSize(ts) }

  // The cell of a tensor with a given count.
  function CellOf<F>(t: TensorInfo<F>, c: nat): (r: Cell)
    requires TensorOk(t) && c < SlotsOf(t)
    ensures InGrid(r, t.numBBoxes, t.gridSizeX, t.gridSizeY) && Count(r, t.gridSizeX, t.gridSizeY) == c
  {
    hide Count, CellAt;
    MulAssoc(t.numBBoxes, t.gridSizeX, t.gridSizeY);
    MulAssoc(t.numBBoxes, t.gridSizeY, t.gridSizeX);
    CellAtIsInverse(c, t.numBBoxes, t.gridSizeX, t.gridSizeY);
    CellAt(c, t.gridSizeX, t.gridSizeY)
  }

  function ThreadAt<F>(ts: Tensors<F>, batches: nat, s: nat): (t: Thread)
    requires ShapesOk(ts) && SlotExists(ts, batches, s)
    ensures Launched(ts, batches, t) && Slot(ts, t) == s
  {
    hide Count, CellOf, TensorOk, SlotsOf, InGrid;
    var out := OutputSize(ts);
    var (b, r) := (PositiveFactor(batches, out, s); (s / out, s % out));
    var i := TensorAt(ts, r, |ts|);
    Thread(b, i, CellOf(ts[i], r - Offset(ts, i)))
  }

  lemma PositiveFactor(a: nat, b: nat, s: nat)
    requires s < a * b
    ensures b > 0 && s / b < a && s % b < b && s == s / b * b + s % b
  {
  }

  // ---------- Exact coverage ----------

  ghost predicate AllBounded<F>(ts: Tensors<F>, batches: nat) {
    forall t: Thread | Launched(ts, batches, t) :: Slot(ts, t) < batches * OutputSize(ts)
  }

  ghost predicate AllDistinct<F>(ts: Tensors<F>, batches: nat) {
    forall t: Thread, u: Thread |
      Launched(ts, batches, t) && Launched(ts, batches, u) && Slot(ts, t) == Slot(ts, u) :: t == u
  }

  ghost predicate AllWritten<F>(ts: Tensors<F>, batches: nat) {
    forall s: nat | SlotExists(ts, batches, s) :: Written(ts, batches, s)
  }

  ghost predicate Written<F>(ts: Tensors<F>, batches: nat, s: nat) {
    exists t: Thread :: Launched(ts, batches, t) && Slot(ts, t) == s
  }

  lemma WideFails<F>(ts: Tensors<F>, batches: nat, i: nat)
    requires batches >= 1 && i < |ts|
    requires ts[i].numBBoxes >= 1 && ts[i].gridSizeX > ts[i].gridSizeY >= 2
    ensures !AllDistinct(ts, batches)
  {
    hide Count;
    WideGridCollides(ts[i].numBBoxes, ts[i].gridSizeX, ts[i].gridSizeY);
    var t, u := Thread(0, i, Cell(0, 0, ts[i].gridSizeY)), Thread(0, i, Cell(0, 1, 0));
    assert Launched(ts, batches, t) && Launched(ts, batches, u) && Slot(ts, t) == Slot(ts, u) && t != u;
  }

  lemma TallFails<F>(ts: Tensors<F>, batches: nat, i: nat)
    requires batches >= 1 && i < |ts| && forall j | 0 <= j < i :: TensorOk(ts[j])
    requires ts[i].numBBoxes >= 1 && ts[i].gridSizeY > ts[i].gridSizeX >= 1
    ensures !AllWritten(ts, batches)
  {
    hide Slot, InGrid;
    var (n, gx, gy) := (ts[i].numBBoxes, ts[i].gridSizeX, ts[i].gridSizeY);
    var s := Offset(ts, i) + gx;
    MulMono(2, gy, gx);
    MulMono(1, n, gy * gx);
    MulAssoc(n, gy, gx);
    OffsetMono(ts, i + 1, |ts|);
    MulMono(1, batches, OutputSize(ts));
    assert SlotExists(ts, batches, s);
    forall t: Thread | Launched(ts, batches, t) ensures Slot(ts, t) != s {
      HoleStays(ts, batches, i, t);
    }
    assert !Written(ts, batches, s);
  }

  lemma WrongShapeFails<F>(ts: Tensors<F>, batches: nat, i: nat)
    requires batches >= 1 && i < |ts| && !TensorOk(ts[i]) && forall j | 0 <= j < i :: TensorOk(ts[j])
    ensures !AllDistinct(ts, batches) || !AllWritten(ts, batches)
  {
    hide AllDistinct, AllWritten;
    if ts[i].gridSizeX > ts[i].gridSizeY { WideFails(ts, batches, i); } else { TallFails(ts, batches, i); }
  }

  lemma LocalHole<F>(ts: Tensors<F>, batches: nat, i: nat, t: Thread)
    requires i < |ts| && forall j | 0 <= j < i :: TensorOk(ts[j])
    requires ts[i].gridSizeY > ts[i].gridSizeX >= 1 && ts[i].gridSizeX < SlotsOf(ts[i])
    requires Launched(ts, batches, t)
    ensures LocalSlot(ts, t) != Offset(ts, i) + ts[i].gridSizeX
  {
    hide Count, SlotsOf;
    if t.tensor < i {
      LocalSlotBound(ts, batches, t);
      OffsetMono(ts, t.tensor + 1, i);
    } else if t.tensor > i {
      OffsetMono(ts, i + 1, t.tensor);
    } else {
      TallGridHole(t.cell, ts[i].numBBoxes, ts[i].gridSizeX, ts[i].gridSizeY);
    }
  }

  lemma HoleStays<F>(ts: Tensors<F>, batches: nat, i: nat, t: Thread)
    requires i < |ts| && forall j | 0 <= j < i :: TensorOk(ts[j])
    requires ts[i].gridSizeY > ts[i].gridSizeX >= 1 && ts[i].gridSizeX < SlotsOf(ts[i])
    requires Launched(ts, batches, t)
    ensures Slot(ts, t) != Offset(ts, i) + ts[i].gridSizeX
  {
    hide Count, SlotsOf, LocalSlot, Launched, TensorOk;
    OffsetMono(ts, i, |ts|);
    LocalHole(ts, batches, i, t);
    if t.batch > 0 { MulMono(1, t.batch, OutputSize(ts)); }
  }

  /** One enqueue writes every slot of [0, batches * m_OutputSize) exactly once, by exactly one launched
      thread, if and only if every tensor that has boxes is square or has a single row. */
  lemma LayoutCondition<F>(ts: Tensors<F>, batches: nat)
    requires batches >= 1
    ensures AllBounded(ts, batches) && AllDistinct(ts, batches) && AllWritten(ts, batches) <==> ShapesOk(ts)
  {
    hide Slot, LocalSlot, InGrid, TensorOk;
    if ShapesOk(ts) {
      forall t: Thread | Launched(ts, batches, t) ensures Slot(ts, t) < batches * OutputSize(ts) {
        SlotBound(ts, batches, t);
      }
      forall t: Thread, u: Thread | Launched(ts, batches, t) && Launched(ts, batches, u) && Slot(ts, t) == Slot(ts, u)
        ensures t == u
      {
        SlotUnique(ts, batches, t, u);
      }
      forall s: nat | SlotExists(ts, batches, s) ensures Written(ts, batches, s) {
        var t := ThreadAt(ts, batches, s);
      }
    } else {
      var i := 0;
      while TensorOk(ts[i])
        invariant 0 <= i < |ts| && forall j | 0 <= j < i :: TensorOk(ts[j])
        decreases |ts| - i
      {
        i := i + 1;
      }
      WrongShapeFails(ts, batches, i);
    }
  }

  // The next tensor with slots, if any, starts where tensor i does.
  lemma {:induction false} NextSlots<F>(ts: Tensors<F>, i: nat) returns (j: nat)
    requires i <= |ts|
    ensures i <= j <= |ts| && Offset(ts, j) == Offset(ts, i) && (j < |ts| ==> SlotsOf(ts[j]) > 0)
    decreases |ts| - i
  {
    hide SlotsOf;
    j := i;
    if i < |ts| && SlotsOf(ts[i]) == 0 { j := NextSlots(ts, i + 1); }
  }

  // The cell of a tall tensor whose slot is the first one after the tensor.
  lemma TallSpill<F>(t: TensorInfo<F>)
    requires t.numBBoxes >= 1 && t.gridSizeY > t.gridSizeX >= 1
    ensures var c := Cell(t.numBBoxes - 1, t.gridSizeX, 0);
      InGrid(c, t.numBBoxes, t.gridSizeX, t.gridSizeY) && Count(c, t.gridSizeX, t.gridSizeY) == SlotsOf(t)
  {
    var (n, gx, gy) := (t.numBBoxes, t.gridSizeX, t.gridSizeY);
    MulAssoc(n - 1, gx, gy);
    MulAssoc(n, gx, gy);
    MulAssoc(n, gy, gx);
    assert n * (gx * gy) == (n - 1) * (gx * gy) + gx * gy;
  }

  lemma FirstCell<F>(t: TensorInfo<F>)
    requires SlotsOf(t) > 0
    ensures InGrid(Cell(0, 0, 0), t.numBBoxes, t.gridSizeX, t.gridSizeY)
    ensures Count(Cell(0, 0, 0), t.gridSizeX, t.gridSizeY) == 0
  {
  }

  // A tall tensor meets the next tensor, or leaves the buffer in the last batch.
  lemma TallUnsafe<F>(ts: Tensors<F>, batches: nat, i: nat)
    requires batches >= 1 && i < |ts|
    requires ts[i].numBBoxes >= 1 && ts[i].gridSizeY > ts[i].gridSizeX >= 1
    ensures !AllBounded(ts, batches) || !AllDistinct(ts, batches)
  {
    hide InGrid, Count, SlotsOf;
    TallSpill(ts[i]);
    var last := Cell(ts[i].numBBoxes - 1, ts[i].gridSizeX, 0);
    var j := NextSlots(ts, i + 1);
    if j < |ts| {
      FirstCell(ts[j]);
      var t, u := Thread(0, i, last), Thread(0, j, Cell(0, 0, 0));
      assert Launched(ts, batches, t) && Launched(ts, batches, u) && Slot(ts, t) == Slot(ts, u) && t != u;
    } else {
      var t := Thread(batches - 1, i, last);
      assert (batches - 1) * OutputSize(ts) + OutputSize(ts) == batches * OutputSize(ts);
      assert Launched(ts, batches, t) && Slot(ts, t) == batches * OutputSize(ts);
    }
  }

  /** The stores of one enqueue stay in the buffers and no two threads store to the same slot if and only if every
      tensor that has boxes is square or has a single row. */
  lemma SafeExactly<F>(ts: Tensors<F>, batches: nat)
    requires batches >= 1
    ensures AllBounded(ts, batches) && AllDistinct(ts, batches) <==> ShapesOk(ts)
  {
    hide AllBounded, AllDistinct, AllWritten;
    LayoutCondition(ts, batches);
    if !ShapesOk(ts) {
      var i :| 0 <= i < |ts| && !TensorOk(ts[i]);
      if ts[i].gridSizeX > ts[i].gridSizeY { WideFails(ts, batches, i); } else { TallUnsafe(ts, batches, i); }
    }
  }
}
