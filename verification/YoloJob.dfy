/** One call of YoloLayer::enqueue: its data, what each thread stores in its slot, and the buffers that a
    thread-free reading of the layout expects at the end when no two threads share a slot. */
module YoloJob {
  import opened GridArithmetic
  import opened YoloSlots
  import opened YoloLayout
  import opened YoloValues

  datatype Job = Job(math: Math, layer: Layer, batches: nat, inputs: seq<seq<real>>) {

    // The buffers have room for every store.
    ghost predicate Valid() {
      && layer.outputSize == OutputSize(layer.tensors)
      && AllBounded(layer.tensors, batches)
      && |inputs| == |layer.tensors|
      && forall i | 0 <= i < |inputs| :: Readable(layer.tensors[i]) && |inputs[i]| == batches * TensorInput(i)
    }

    function TensorInput(i: nat): nat
      requires i < |layer.tensors|
    {
      InputSize(layer.tensors[i].numBBoxes, layer.tensors[i].gridSizeX, layer.tensors[i].gridSizeY, layer.numClasses)
    }

    predicate Has(t: Thread) { Launched(layer.tensors, batches, t) }

    // input + batch * inputSize, field k of the thread's cell; the softmax buffer has the same layout.
    function Index(t: Thread, k: nat): nat
      requires t.tensor < |layer.tensors|
    {
      t.batch * TensorInput(t.tensor)
        + Address(t.cell, k, layer.tensors[t.tensor].gridSizeX, layer.tensors[t.tensor].gridSizeY, layer.numClasses)
    }

    lemma IndexBound(t: Thread, k: nat)
      requires Has(t) && k < 5 + layer.numClasses
      ensures Index(t, k) < batches * TensorInput(t.tensor)
    {
      hide Address, InputSize;
      var i := layer.tensors[t.tensor];
      AddressBound(t.cell, k, i.numBBoxes, i.gridSizeX, i.gridSizeY, layer.numClasses);
      var address := Address(t.cell, k, i.gridSizeX, i.gridSizeY, layer.numClasses);
      PairBound(t.batch, batches, address, TensorInput(t.tensor));
    }

    /** No two threads of a tensor share an input address or a softmax cell, and batches do not overlap. */
    lemma IndexUnique(t: Thread, k: nat, u: Thread, l: nat)
      requires Has(t) && Has(u) && t.tensor == u.tensor && k < 5 + layer.numClasses && l < 5 + layer.numClasses
      requires Index(t, k) == Index(u, l)
      ensures t == u && k == l
    {
      hide Address, InputSize;
      var i := layer.tensors[t.tensor];
      AddressBound(t.cell, k, i.numBBoxes, i.gridSizeX, i.gridSizeY, layer.numClasses);
      AddressBound(u.cell, l, i.numBBoxes, i.gridSizeX, i.gridSizeY, layer.numClasses);
      PairUnique(t.batch, Address(t.cell, k, i.gridSizeX, i.gridSizeY, layer.numClasses),
                 u.batch, Address(u.cell, l, i.gridSizeX, i.gridSizeY, layer.numClasses), TensorInput(t.tensor));
      AddressUnique(t.cell, k, u.cell, l, i.numBBoxes, i.gridSizeX, i.gridSizeY, layer.numClasses);
    }

    // The softmax cell, and the input address, of class k.
    function ClassIndex(t: Thread, k: nat): nat
      requires t.tensor < |layer.tensors|
    {
      Index(t, 5 + k)
    }

    lemma ClassIndexBound(t: Thread, k: nat)
      requires Has(t) && k < layer.numClasses
      ensures ClassIndex(t, k) < batches * TensorInput(t.tensor)
    {
      hide Job.Index;
      IndexBound(t, 5 + k);
    }

    lemma ClassIndexesDiffer(t: Thread, k: nat, u: Thread, l: nat)
      requires Has(t) && Has(u) && t.tensor == u.tensor && k < layer.numClasses && l < layer.numClasses
      requires t != u || k != l
      ensures ClassIndex(t, k) != ClassIndex(u, l)
    {
      hide Job.Index;
      if ClassIndex(t, k) == ClassIndex(u, l) { IndexUnique(t, 5 + k, u, 5 + l); }
    }

    // The fields of the thread's cell.
    ghost function Raw(t: Thread): (raw: seq<real>)
      requires Valid() && Has(t)
      ensures |raw| == 5 + layer.numClasses
    {
      seq(5 + layer.numClasses, k requires 0 <= k < 5 + layer.numClasses =>
        (IndexBound(t, k); inputs[t.tensor][Index(t, k)]))
    }

    ghost function Box(t: Thread, f: nat): real
      requires Valid() && Has(t) && f < 4
    {
      BoxField(math, layer, t.tensor, t.cell, Raw(t), f)
    }

    ghost function Score(t: Thread): real
      requires Valid() && Has(t)
    {
      var kernel := KernelOf(layer, t.tensor);
      Choice(math, kernel, Raw(t)).prob * Objectness(math, kernel, Raw(t))
    }

    ghost function Class(t: Thread): real
      requires Valid() && Has(t)
    {
      Choice(math, KernelOf(layer, t.tensor), Raw(t)).index as real
    }

    function SlotOf(t: Thread): nat
      requires t.tensor < |layer.tensors|
    {
      Slot(layer.tensors, t)
    }

    // What thread t stores: the four fields of its box, its score, its class.
    ghost function Result(t: Thread, q: nat): real
      requires Valid() && Has(t) && q < 6
    {
      if q < 4 then Box(t, q) else if q == 4 then Score(t) else Class(t)
    }

    lemma SlotsDiffer(t: Thread, u: Thread)
      requires ShapesOk(layer.tensors) && Has(t) && Has(u) && t != u
      ensures SlotOf(t) != SlotOf(u)
    {
      hide Slot;
      if SlotOf(t) == SlotOf(u) { SlotUnique(layer.tensors, batches, t, u); }
    }

    function Total(): nat { batches * OutputSize(layer.tensors) }

    lemma SlotInTotal(t: Thread)
      requires Valid() && Has(t)
      ensures SlotOf(t) < Total()
    {
    }
  }

  // count * 4 + f
  function FieldAt(slot: nat, f: nat): nat { slot * 4 + f }

  // The contents of the three output buffers.
  datatype Buffers = Buffers(boxes: seq<real>, scores: seq<real>, classes: seq<real>)

  ghost predicate Fits(j: Job, m: Buffers) {
    |m.boxes| == 4 * j.Total() && |m.scores| == j.Total() && |m.classes| == j.Total()
  }

  // What the buffers hold of a slot: result q of some thread.
  ghost function OutAt(j: Job, m: Buffers, q: nat, slot: nat): real
    requires Fits(j, m) && q < 6 && slot < j.Total()
  {
    if q < 4 then m.boxes[FieldAt(slot, q)] else if q == 4 then m.scores[slot] else m.classes[slot]
  }

  // Thread t's results are in its slot.
  ghost predicate Holds(j: Job, m: Buffers, t: Thread)
    requires j.Valid() && Fits(j, m) && j.Has(t)
  {
    j.SlotInTotal(t);
    forall q: nat | q < 6 :: OutAt(j, m, q, j.SlotOf(t)) == j.Result(t, q)
  }

  // ---------- Any grid shapes ----------

  // A place of the buffers is as before if no thread has its slot, and else holds what a thread of that slot stores.
  ghost predicate PlaceFrom(j: Job, start: Buffers, m: Buffers, q: nat, slot: nat)
    requires j.Valid() && Fits(j, start) && Fits(j, m) && q < 6 && slot < j.Total()
  {
    || (OutAt(j, m, q, slot) == OutAt(j, start, q, slot) && forall t | j.Has(t) :: j.SlotOf(t) != slot)
    || exists t: Thread :: j.Has(t) && j.SlotOf(t) == slot && OutAt(j, m, q, slot) == j.Result(t, q)
  }

  ghost predicate FromThreads(j: Job, start: Buffers, m: Buffers)
    requires j.Valid() && Fits(j, start) && Fits(j, m)
  {
    forall q: nat, slot: nat | q < 6 && slot < j.Total() :: PlaceFrom(j, start, m, q, slot)
  }

  // ---------- Shapes for which slots are not shared ----------

  // The buffers read slot by slot: slot s holds what the thread of the cell it stands for computes.
  ghost function Reference(j: Job): (m: Buffers)
    requires j.Valid() && ShapesOk(j.layer.tensors)
    ensures Fits(j, m)
  {
    var ts := j.layer.tensors;
    Buffers(
      seq(4 * j.Total(), n requires 0 <= n < 4 * j.Total() => j.Box(ThreadAt(ts, j.batches, n / 4), n % 4)),
      seq(j.Total(), s requires 0 <= s < j.Total() => j.Score(ThreadAt(ts, j.batches, s))),
      seq(j.Total(), s requires 0 <= s < j.Total() => j.Class(ThreadAt(ts, j.batches, s))))
  }

  lemma BoxesAreReference(j: Job, m: Buffers, n: nat)
    requires j.Valid() && ShapesOk(j.layer.tensors)
    requires Fits(j, m) && n < |m.boxes| && forall t | j.Has(t) :: Holds(j, m, t)
    ensures m.boxes[n] == Reference(j).boxes[n]
  {
    hide Slot, ThreadAt, InGrid, OutputSize, Job.Box, Job.Score, Job.Class;
    var t := ThreadAt(j.layer.tensors, j.batches, n / 4);
    assert Holds(j, m, t);
    assert OutAt(j, m, n % 4, j.SlotOf(t)) == j.Result(t, n % 4);
  }

  lemma ScoresAreReference(j: Job, m: Buffers, s: nat)
    requires j.Valid() && ShapesOk(j.layer.tensors)
    requires Fits(j, m) && s < |m.scores| && forall t | j.Has(t) :: Holds(j, m, t)
    ensures m.scores[s] == Reference(j).scores[s] && m.classes[s] == Reference(j).classes[s]
  {
    hide Slot, ThreadAt, InGrid, OutputSize, Job.Box, Job.Score, Job.Class;
    var t := ThreadAt(j.layer.tensors, j.batches, s);
    assert Holds(j, m, t);
    assert OutAt(j, m, 4, s) == j.Result(t, 4) && OutAt(j, m, 5, s) == j.Result(t, 5);
  }

  /** When every launched thread has left its results, the buffers are the reference, whatever they held before. */
  lemma AllHeldIsReference(j: Job, m: Buffers)
    requires j.Valid() && ShapesOk(j.layer.tensors) && Fits(j, m) && forall t | j.Has(t) :: Holds(j, m, t)
    ensures m == Reference(j)
  {
    hide Holds, Reference;
    var r := Reference(j);
    forall n | 0 <= n < |m.boxes| ensures m.boxes[n] == r.boxes[n] { BoxesAreReference(j, m, n); }
    forall s | 0 <= s < |m.scores| ensures m.scores[s] == r.scores[s] && m.classes[s] == r.classes[s] {
      ScoresAreReference(j, m, s);
    }
    assert m.boxes == r.boxes && m.scores == r.scores && m.classes == r.classes;
  }

  lemma OwnPlace(j: Job, start: Buffers, m: Buffers, t: Thread, q: nat)
    requires j.Valid() && ShapesOk(j.layer.tensors) && Fits(j, start) && Fits(j, m) && j.Has(t) && q < 6
    requires j.SlotOf(t) < j.Total() && PlaceFrom(j, start, m, q, j.SlotOf(t))
    ensures OutAt(j, m, q, j.SlotOf(t)) == j.Result(t, q)
  {
    hide Job.Result, Job.SlotOf, InGrid, Job.Total, OutAt, ShapesOk;
    var u: Thread :| j.Has(u) && j.SlotOf(u) == j.SlotOf(t) && OutAt(j, m, q, j.SlotOf(t)) == j.Result(u, q);
    if u != t { j.SlotsDiffer(t, u); }
  }

  /** With right shapes, a slot has one thread, so buffers whose places come from threads are the reference. */
  lemma OneThreadPerSlot(j: Job, start: Buffers, m: Buffers)
    requires j.Valid() && ShapesOk(j.layer.tensors) && Fits(j, start) && Fits(j, m) && FromThreads(j, start, m)
    ensures m == Reference(j)
  {
    hide PlaceFrom, OutAt, Job.SlotOf, Job.Result, InGrid, ShapesOk, Reference;
    forall t | j.Has(t) ensures Holds(j, m, t) {
      j.SlotInTotal(t);
      forall q: nat | q < 6 ensures OutAt(j, m, q, j.SlotOf(t)) == j.Result(t, q) { OwnPlace(j, start, m, t, q); }
    }
    AllHeldIsReference(j, m);
  }
}
