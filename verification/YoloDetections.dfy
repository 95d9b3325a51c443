/** From the output layer to the box decoders: one batch of the buffers, decoded on the CPU. */
module YoloDetections {
  import opened GridArithmetic
  import opened YoloSlots
  import opened YoloLayout
  import opened YoloValues
  import opened YoloJob
  import YoloMeaning
  import BBoxDecode

  // The part of the buffers that belongs to a batch.
  function BatchOf<T>(s: seq<T>, batch: nat, size: nat): (r: seq<T>)
    requires (batch + 1) * size <= |s|
    ensures |r| == size && forall k | 0 <= k < size :: r[k] == s[batch * size + k]
  {
    s[batch * size..(batch + 1) * size]
  }

  lemma BatchFits(batch: nat, batches: nat, size: nat)
    requires batch < batches
    ensures (batch + 1) * size <= batches * size && (batch + 1) * (4 * size) <= 4 * (batches * size)
  {
    MulMono(batch + 1, batches, size);
    MulMono(batch + 1, batches, 4 * size);
    MulAssoc(4, batches, size);
  }

  /** What a decoder is given of one batch of the finished buffers. */
  ghost function Decoding(j: Job, batch: nat, form: BBoxDecode.Form, thresholds: seq<real>): (o: BBoxDecode.Output)
    requires j.Valid() && ShapesOk(j.layer.tensors) && batch < j.batches
    ensures o.Size() == |o.classes| == OutputSize(j.layer.tensors) && o.thresholds == thresholds
    ensures (thresholds != [] ==> o.Valid())
    ensures o.form == form && (o.netW, o.netH) == (j.layer.netWidth, j.layer.netHeight)
  {
    hide Reference, ShapesOk, OutputSize;
    var (m, size) := (Reference(j), OutputSize(j.layer.tensors));
    BatchFits(batch, j.batches, size);
    BBoxDecode.Output(form, BatchOf(m.boxes, batch, 4 * size), BatchOf(m.scores, batch, size),
                      BatchOf(m.classes, batch, size), j.layer.netWidth, j.layer.netHeight, thresholds)
  }

  /** Element b of what the decoder is given is the box, the score and the class of the thread with slot b. */
  lemma ThreadIsElement(j: Job, form: BBoxDecode.Form, thresholds: seq<real>, t: Thread)
    requires j.Valid() && ShapesOk(j.layer.tensors) && j.Has(t)
    ensures var (o, b) := (Decoding(j, t.batch, form, thresholds), LocalSlot(j.layer.tensors, t));
      && b < o.Size() && |o.boxes| == 4 * o.Size() && |o.classes| == o.Size()
      && (o.boxes[b * 4], o.boxes[b * 4 + 1]) == (j.Result(t, 0), j.Result(t, 1))
      && (o.boxes[b * 4 + 2], o.boxes[b * 4 + 3]) == (j.Result(t, 2), j.Result(t, 3))
      && o.scores[b] == j.Result(t, 4) && o.classes[b] == j.Result(t, 5)
  {
    hide Reference, ShapesOk, OutputSize, LocalSlot, Job.Result, InGrid;
    var (size, b) := (OutputSize(j.layer.tensors), LocalSlot(j.layer.tensors, t));
    YoloMeaning.ReferenceAt(j, t);
    LocalSlotInSize(j.layer.tensors, j.batches, t);
    BatchFits(t.batch, j.batches, size);
    assert 4 * (t.batch * size + b) == t.batch * (4 * size) + b * 4 by { FourTimes(t.batch, size, b); }
  }

  lemma FourTimes(batch: nat, size: nat, b: nat)
    ensures 4 * (batch * size + b) == batch * (4 * size) + b * 4
  {
  }

  // The class in a slot of the batch.
  lemma ClassInBatch(j: Job, batch: nat, form: BBoxDecode.Form, thresholds: seq<real>, b: nat)
    requires j.Valid() && ShapesOk(j.layer.tensors) && batch < j.batches && b < OutputSize(j.layer.tensors)
    ensures batch * OutputSize(j.layer.tensors) + b < j.batches * OutputSize(j.layer.tensors)
    ensures Decoding(j, batch, form, thresholds).classes[b]
         == Reference(j).classes[batch * OutputSize(j.layer.tensors) + b]
  {
    hide Reference, ShapesOk, OutputSize;
    PairBound(batch, j.batches, b, OutputSize(j.layer.tensors));
    BatchFits(batch, j.batches, OutputSize(j.layer.tensors));
  }

  // The class in a slot of the buffers.
  lemma ClassInSlot(j: Job, s: nat)
    requires j.Valid() && ShapesOk(j.layer.tensors) && s < j.batches * OutputSize(j.layer.tensors)
    ensures var t := ThreadAt(j.layer.tensors, j.batches, s); j.Has(t) && Reference(j).classes[s] == j.Class(t)
  {
    hide Job.Box, Job.Score, Job.Class, ThreadAt, Slot, InGrid, OutputSize;
  }

  // A class index that is a float again and back.
  lemma IndexSurvives(i: int, classes: seq<real>, b: nat, o: BBoxDecode.Output)
    requires o.classes == classes && b < |classes| && classes[b] == i as real
    ensures o.ClassAt(b) == i
  {
  }

  function ClassValue(raw: seq<real>, k: nat): real
    requires 5 + k < |raw|
  {
    raw[5 + k]
  }

  predicate AnyPositive(raw: seq<real>) { exists k | 0 <= k < |raw| - 5 :: ClassValue(raw, k) > 0.0 }

  // Some class of the thread has a value above zero.
  ghost predicate SomePositive(j: Job, t: Thread)
    requires j.Valid() && j.Has(t)
  {
    AnyPositive(j.Raw(t))
  }

  lemma NewCoordsChoice(m: Math, raw: seq<real>)
    requires |raw| > 5
    ensures Choice(m, YoloNc, raw).index < |raw| - 5
    ensures 0 <= Choice(m, YoloNc, raw).index <==> AnyPositive(raw)
  {
    hide Softmax;
    var probs := ClassProbs(m, YoloNc, raw, Softmax(m, raw[5..]));
    assert forall k | 0 <= k < |probs| :: probs[k] == ClassValue(raw, k);
    if AnyPositive(raw) {
      var k :| 0 <= k < |raw| - 5 && ClassValue(raw, k) > 0.0;
      assert probs[k] > 0.0;
    }
  }

  /** A thread settles on a class if and only if it is not one of the new-coordinates kernel without a class value
      above zero. */
  lemma ClassExactly(j: Job, t: Thread)
    requires j.Valid() && j.Has(t) && j.layer.numClasses > 0
    ensures var w := Choice(j.math, KernelOf(j.layer, t.tensor), j.Raw(t));
      && w.index < j.layer.numClasses
      && (0 <= w.index <==> KernelOf(j.layer, t.tensor) != YoloNc || SomePositive(j, t))
  {
    hide Choice, InGrid, AnyPositive;
    if KernelOf(j.layer, t.tensor) == YoloNc {
      NewCoordsChoice(j.math, j.Raw(t));
    } else {
      ChoiceExists(j.math, KernelOf(j.layer, t.tensor), j.Raw(t));
    }
  }

  // The slot of the batch and the thread that fills it.
  lemma SlotClass(j: Job, batch: nat, form: BBoxDecode.Form, thresholds: seq<real>, b: nat) returns (t: Thread)
    requires j.Valid() && ShapesOk(j.layer.tensors) && batch < j.batches && b < OutputSize(j.layer.tensors)
    ensures j.Has(t) && t.batch == batch && j.SlotOf(t) == batch * OutputSize(j.layer.tensors) + b
    ensures Decoding(j, batch, form, thresholds).ClassAt(b)
         == Choice(j.math, KernelOf(j.layer, t.tensor), j.Raw(t)).index
  {
    hide Choice, InGrid, Reference, Decoding, OutputSize, ShapesOk, LocalSlot, BBoxDecode.Output.ClassAt;
    var (ts, size) := (j.layer.tensors, OutputSize(j.layer.tensors));
    ClassInBatch(j, batch, form, thresholds, b);
    ClassInSlot(j, batch * size + b);
    t := ThreadAt(ts, j.batches, batch * size + b);
    LocalSlotInSize(ts, j.batches, t);
    PairUnique(t.batch, LocalSlot(ts, t), batch, b, size);
    var o := Decoding(j, batch, form, thresholds);
    IndexSurvives(Choice(j.math, KernelOf(j.layer, t.tensor), j.Raw(t)).index, o.classes, b, o);
  }

  lemma LocalSlotInSize<F>(ts: Tensors<F>, batches: nat, t: Thread)
    requires ShapesOk(ts) && Launched(ts, batches, t)
    ensures LocalSlot(ts, t) < OutputSize(ts)
  {
    LocalSlotBound(ts, batches, t);
  }

  /** With a threshold for each class, the CPU decoder looks up thresholds that exist, in every slot of a batch, if and
      only if every thread of the new-coordinates kernel has a class value above zero. */
  lemma DecodableExactly(j: Job, batch: nat, form: BBoxDecode.Form, thresholds: seq<real>)
    requires j.Valid() && ShapesOk(j.layer.tensors) && batch < j.batches
    requires |thresholds| == j.layer.numClasses > 0
    ensures Decoding(j, batch, form, thresholds).Valid()
    ensures Decoding(j, batch, form, thresholds).Indexed()
       <==> forall t | j.Has(t) && t.batch == batch && KernelOf(j.layer, t.tensor) == YoloNc :: SomePositive(j, t)
  {
    hide Choice, InGrid, Reference, SomePositive, BBoxDecode.Output.ClassAt, ShapesOk;
    var (o, size) := (Decoding(j, batch, form, thresholds), OutputSize(j.layer.tensors));
    if forall t | j.Has(t) && t.batch == batch && KernelOf(j.layer, t.tensor) == YoloNc :: SomePositive(j, t) {
      forall b | 0 <= b < size ensures 0 <= o.ClassAt(b) < |thresholds| {
        var t := SlotClass(j, batch, form, thresholds, b);
        ClassExactly(j, t);
      }
    }
    if o.Indexed() {
      forall t | j.Has(t) && t.batch == batch && KernelOf(j.layer, t.tensor) == YoloNc ensures SomePositive(j, t) {
        ThreadIndexed(j, form, thresholds, t);
      }
    }
  }

  lemma ThreadIndexed(j: Job, form: BBoxDecode.Form, thresholds: seq<real>, t: Thread)
    requires j.Valid() && ShapesOk(j.layer.tensors) && j.Has(t) && KernelOf(j.layer, t.tensor) == YoloNc
    requires |thresholds| == j.layer.numClasses > 0
    requires Decoding(j, t.batch, form, thresholds).Valid() && Decoding(j, t.batch, form, thresholds).Indexed()
    ensures SomePositive(j, t)
  {
    hide Choice, InGrid, Reference, SomePositive, BBoxDecode.Output.ClassAt, Job.Raw;
    LocalSlotBound(j.layer.tensors, j.batches, t);
    var b := LocalSlot(j.layer.tensors, t);
    var u := SlotClass(j, t.batch, form, thresholds, b);
    if u != t { j.SlotsDiffer(t, u); }
    ClassExactly(j, t);
    var o := Decoding(j, t.batch, form, thresholds);
    assert 0 <= o.ClassAt(b) < |thresholds|;
  }
}
