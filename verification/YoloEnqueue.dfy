/** YoloLayer::enqueue and the code it launches, over the device buffers. The threads of one launch run one
    after the other in any order; YoloThreads interleaves their stores. */
module YoloEnqueue {
  import opened YoloTensor
  import opened YoloSlots
  import opened YoloLayout
  import opened YoloValues
  import opened YoloJob

  ghost function Contents(boxes: array<real>, scores: array<real>, classes: array<real>): Buffers
    reads boxes, scores, classes
  {
    Buffers(boxes[..], scores[..], classes[..])
  }

  method ReadFields(j: Job, t: Thread) returns (raw: seq<real>)
    requires j.Valid() && j.Has(t)
    ensures raw == j.Raw(t)
  {
    hide Job.Index, InGrid;
    raw := [];
    for k := 0 to 5 + j.layer.numClasses
      invariant raw == j.Raw(t)[..k]
    {
      j.IndexBound(t, k);
      raw := raw + [j.inputs[t.tensor][j.Index(t, k)]];
    }
  }

  // ---------- softmaxGPU ----------

  method LargestOf(vals: seq<real>) returns (largest: real)
    requires |vals| > 0
    ensures largest == Largest(vals)
  {
    // The first comparison is with minus infinity.
    largest := 0.0;
    for i := 0 to |vals|
      invariant i > 0 ==> largest == Largest(vals[..i])
    {
      var val := Truncate(vals[i]) as real;
      assert vals[..i + 1][..i] == vals[..i];
      if i == 0 || val > largest { largest := val; }
    }
    assert vals[..|vals|] == vals;
  }

  // A thread's cells of one tensor's softmax buffer.
  ghost predicate OwnCell(j: Job, t: Thread, a: nat)
    requires t.tensor < |j.layer.tensors|
  {
    exists k: nat :: k < j.layer.numClasses && j.ClassIndex(t, k) == a
  }

  ghost predicate OnlyOwnChanged(j: Job, t: Thread, before: seq<real>, after: seq<real>)
    requires t.tensor < |j.layer.tensors|
  {
    |before| == |after| && forall a | 0 <= a < |after| && !OwnCell(j, t, a) :: after[a] == before[a]
  }

  // The thread's first n cells are the first n values.
  ghost predicate CellsAre(j: Job, t: Thread, cells: seq<real>, values: seq<real>, from: nat, to: nat)
    requires j.Has(t) && |cells| == j.batches * j.TensorInput(t.tensor) && from <= to <= j.layer.numClasses == |values|
  {
    forall k | from <= k < to :: (j.ClassIndexBound(t, k); cells[j.ClassIndex(t, k)] == values[k])
  }

  ghost predicate ClassStored(j: Job, t: Thread, k: nat, v: real, before: seq<real>, after: seq<real>)
    requires j.Has(t) && k < j.layer.numClasses && |before| == |after| == j.batches * j.TensorInput(t.tensor)
  {
    && OnlyOwnChanged(j, t, before, after)
    && forall l: nat | l < j.layer.numClasses ::
        (j.ClassIndexBound(t, l); after[j.ClassIndex(t, l)] == if l == k then v else before[j.ClassIndex(t, l)])
  }

  method PutClass(j: Job, t: Thread, k: nat, v: real, softmax: array<real>)
    requires j.Has(t) && k < j.layer.numClasses && softmax.Length == j.batches * j.TensorInput(t.tensor)
    modifies softmax
    ensures ClassStored(j, t, k, v, old(softmax[..]), softmax[..])
  {
    hide Job.ClassIndex, InGrid;
    j.ClassIndexBound(t, k);
    softmax[j.ClassIndex(t, k)] := v;
    assert OwnCell(j, t, j.ClassIndex(t, k));
    forall l: nat | l < j.layer.numClasses
      ensures j.ClassIndex(t, l) < softmax.Length && (l != k ==> j.ClassIndex(t, l) != j.ClassIndex(t, k))
    {
      j.ClassIndexBound(t, l);
      if l != k { j.ClassIndexesDiffer(t, k, t, l); }
    }
  }

  // A store keeps the cells on either side of it and sets its own.
  lemma StoredCells(j: Job, t: Thread, k: nat, v: real, before: seq<real>, after: seq<real>, values: seq<real>,
                    from: nat, to: nat)
    requires j.Has(t) && k < j.layer.numClasses && |before| == |after| == j.batches * j.TensorInput(t.tensor)
    requires ClassStored(j, t, k, v, before, after)
    requires from <= to <= j.layer.numClasses == |values| && CellsAre(j, t, before, values, from, to)
    ensures to == k && values[k] == v ==> CellsAre(j, t, after, values, from, k + 1)
    ensures from == k < to ==> CellsAre(j, t, after, values, k + 1, to)
  {
  }

  method ExpTerm(m: Math, vals: seq<real>, largest: real, i: nat) returns (e: real)
    requires i < |vals| && largest == Largest(vals)
    ensures e == Exponentials(m, vals)[i]
  {
    hide Largest;
    e := m.exp(vals[i] / TEMP - largest / TEMP);
  }

  method StoreExponentials(j: Job, t: Thread, vals: seq<real>, largest: real, softmax: array<real>) returns (sum: real)
    requires j.Has(t) && softmax.Length == j.batches * j.TensorInput(t.tensor)
    requires |vals| == j.layer.numClasses && (|vals| > 0 ==> largest == Largest(vals))
    modifies softmax
    ensures sum == Sum(Exponentials(j.math, vals), |vals|)
    ensures CellsAre(j, t, softmax[..], Exponentials(j.math, vals), 0, j.layer.numClasses)
    ensures OnlyOwnChanged(j, t, old(softmax[..]), softmax[..])
  {
    hide Job.ClassIndex, InGrid, Largest, OwnCell, Job.TensorInput;
    ghost var es := Exponentials(j.math, vals);
    sum := 0.0;
    for i := 0 to j.layer.numClasses
      invariant sum == Sum(es, i)
      invariant CellsAre(j, t, softmax[..], es, 0, i)
      invariant OnlyOwnChanged(j, t, old(softmax[..]), softmax[..])
    {
      hide CellsAre, Exponentials;
      var e := ExpTerm(j.math, vals, largest, i);
      sum := sum + e;
      ghost var before := softmax[..];
      PutClass(j, t, i, e, softmax);
      StoredCells(j, t, i, e, before, softmax[..], es, 0, i);
    }
  }

  method DivideCells(j: Job, t: Thread, vals: seq<real>, sum: real, softmax: array<real>)
    requires j.Has(t) && softmax.Length == j.batches * j.TensorInput(t.tensor) && |vals| == j.layer.numClasses
    requires sum == Sum(Exponentials(j.math, vals), |vals|)
    requires CellsAre(j, t, softmax[..], Exponentials(j.math, vals), 0, j.layer.numClasses)
    modifies softmax
    ensures CellsAre(j, t, softmax[..], Softmax(j.math, vals), 0, j.layer.numClasses)
    ensures OnlyOwnChanged(j, t, old(softmax[..]), softmax[..])
  {
    hide Job.ClassIndex, InGrid, OwnCell, Sum, Exponential, Job.TensorInput;
    SumPositive(Exponentials(j.math, vals), |vals|);
    ghost var es, p := Exponentials(j.math, vals), Softmax(j.math, vals);
    for i := 0 to j.layer.numClasses
      invariant CellsAre(j, t, softmax[..], p, 0, i)
      invariant CellsAre(j, t, softmax[..], es, i, j.layer.numClasses)
      invariant OnlyOwnChanged(j, t, old(softmax[..]), softmax[..])
    {
      j.ClassIndexBound(t, i);
      assert softmax[..][j.ClassIndex(t, i)] == es[i];
      var q := softmax[j.ClassIndex(t, i)] / sum;
      assert q == p[i];
      hide CellsAre, Softmax, Exponentials;
      ghost var before := softmax[..];
      PutClass(j, t, i, q, softmax);
      StoredCells(j, t, i, q, before, softmax[..], p, 0, i);
      StoredCells(j, t, i, q, before, softmax[..], es, i, j.layer.numClasses);
    }
  }

  /** The three loops of softmaxGPU: the thread's cells end as the softmax of the values, and no other
      cell of the buffer changes. */
  method SoftmaxGpu(j: Job, t: Thread, vals: seq<real>, softmax: array<real>)
    requires j.Has(t) && softmax.Length == j.batches * j.TensorInput(t.tensor) && |vals| == j.layer.numClasses
    modifies softmax
    ensures CellsAre(j, t, softmax[..], Softmax(j.math, vals), 0, j.layer.numClasses)
    ensures OnlyOwnChanged(j, t, old(softmax[..]), softmax[..])
  {
    hide CellsAre, OwnCell;
    var largest := 0.0;
    if |vals| > 0 { largest := LargestOf(vals); }
    var sum := StoreExponentials(j, t, vals, largest, softmax);
    DivideCells(j, t, vals, sum, softmax);
  }

  // ---------- One thread ----------

  // The loop over the classes.
  method ChooseClass(j: Job, t: Thread, raw: seq<real>, softmax: array<real>) returns (maxProb: real, maxIndex: int)
    requires j.Valid() && j.Has(t) && raw == j.Raw(t) && softmax.Length == j.batches * j.TensorInput(t.tensor)
    requires KernelOf(j.layer, t.tensor) == Region ==>
      CellsAre(j, t, softmax[..], Softmax(j.math, raw[5..]), 0, j.layer.numClasses)
    ensures Winner(maxProb, maxIndex) == Choice(j.math, KernelOf(j.layer, t.tensor), raw)
  {
    hide Softmax, Job.ClassIndex, InGrid, Sigmoid;
    var kernel := KernelOf(j.layer, t.tensor);
    ghost var probs := ClassProbs(j.math, kernel, raw, Softmax(j.math, raw[5..]));
    maxProb, maxIndex := 0.0, -1;
    for i := 0 to j.layer.numClasses
      invariant Winner(maxProb, maxIndex) == Best(probs[..i])
    {
      j.ClassIndexBound(t, i);
      var prob := match kernel
        case Yolo => Sigmoid(j.math, raw[5 + i])
        case YoloNc => raw[5 + i]
        case Region => softmax[j.ClassIndex(t, i)];
      assert prob == probs[i];
      assert probs[..i + 1][..i] == probs[..i];
      if prob > maxProb { maxProb, maxIndex := prob, i; }
    }
    assert probs[..j.layer.numClasses] == probs;
  }

  // The same results in a slot.
  ghost predicate SameSlot(j: Job, before: Buffers, after: Buffers, slot: nat)
    requires Fits(j, before) && Fits(j, after) && slot < j.Total()
  {
    forall q: nat | q < 6 :: OutAt(j, after, q, slot) == OutAt(j, before, q, slot)
  }

  // Only thread t's slot changed, and it holds t's results.
  ghost predicate SlotStored(j: Job, t: Thread, before: Buffers, after: Buffers)
    requires j.Valid() && j.Has(t) && Fits(j, before) && Fits(j, after)
  {
    && (forall slot: nat | slot < j.Total() && slot != j.SlotOf(t) :: SameSlot(j, before, after, slot))
    && Holds(j, after, t)
  }

  method RunThread(j: Job, t: Thread, softmax: array<real>,
                   boxes: array<real>, scores: array<real>, classes: array<real>)
    requires j.Valid() && t.batch < j.batches && t.tensor < |j.layer.tensors|
    requires Fits(j, Contents(boxes, scores, classes)) && softmax.Length == j.batches * j.TensorInput(t.tensor)
    requires boxes != scores && boxes != classes && scores != classes && softmax !in {boxes, scores, classes}
    modifies softmax, boxes, scores, classes
    ensures Fits(j, Contents(boxes, scores, classes))
    ensures if j.Has(t) then SlotStored(j, t, old(Contents(boxes, scores, classes)), Contents(boxes, scores, classes))
            else Contents(boxes, scores, classes) == old(Contents(boxes, scores, classes))
  {
    hide SlotStored, Choice, CellsAre;
    var i := j.layer.tensors[t.tensor];
    if t.cell.x >= i.gridSizeX || t.cell.y >= i.gridSizeY || t.cell.z >= i.numBBoxes { return; }
    var raw := ReadFields(j, t);
    var kernel := KernelOf(j.layer, t.tensor);
    if kernel == Region { SoftmaxGpu(j, t, raw[5..], softmax); }
    var maxProb, maxIndex := ChooseClass(j, t, raw, softmax);
    var xc, yc, w, h, score := Detection(j, t, raw, maxProb);
    assert maxIndex as real == j.Class(t);
    StoreSlot(j, t, xc, yc, w, h, score, maxIndex as real, boxes, scores, classes);
  }

  method PutSlot(total: nat, count: nat, xc: real, yc: real, w: real, h: real, score: real, index: real,
                 boxes: array<real>, scores: array<real>, classes: array<real>)
    requires count < total && boxes.Length == 4 * total && scores.Length == total && classes.Length == total
    requires boxes != scores && boxes != classes && scores != classes
    modifies boxes, scores, classes
    ensures forall s: nat, f: nat | f < 4 && s < total ::
      boxes[..][FieldAt(s, f)] == if s == count then [xc, yc, w, h][f] else old(boxes[..])[FieldAt(s, f)]
    ensures scores[..] == old(scores[..])[count := score] && classes[..] == old(classes[..])[count := index]
  {
    boxes[count * 4 + 0] := xc;
    boxes[count * 4 + 1] := yc;
    boxes[count * 4 + 2] := w;
    boxes[count * 4 + 3] := h;
    scores[count] := score;
    classes[count] := index;
  }

  // The six stores of PutSlot amount to one slot.
  lemma PutIsStored(j: Job, t: Thread, before: Buffers, after: Buffers)
    requires j.Valid() && j.Has(t) && Fits(j, before) && Fits(j, after) && j.SlotOf(t) < j.Total()
    requires forall s: nat, f: nat | f < 4 && s < j.Total() ::
      after.boxes[FieldAt(s, f)] == if s == j.SlotOf(t) then j.Box(t, f) else before.boxes[FieldAt(s, f)]
    requires after.scores == before.scores[j.SlotOf(t) := j.Score(t)]
    requires after.classes == before.classes[j.SlotOf(t) := j.Class(t)]
    ensures SlotStored(j, t, before, after)
  {
    hide Job.Box, Job.Score, Job.Class, Job.SlotOf, InGrid, FieldAt, Job.Total;
    j.SlotInTotal(t);
  }

  // The box and the score of a thread.
  method Detection(j: Job, t: Thread, raw: seq<real>, maxProb: real)
    returns (xc: real, yc: real, w: real, h: real, score: real)
    requires j.Valid() && j.Has(t) && raw == j.Raw(t)
    requires maxProb == Choice(j.math, KernelOf(j.layer, t.tensor), raw).prob
    ensures xc == j.Box(t, 0) && yc == j.Box(t, 1) && w == j.Box(t, 2) && h == j.Box(t, 3) && score == j.Score(t)
  {
    hide BoxField, Choice, Objectness, InGrid;
    xc := BoxField(j.math, j.layer, t.tensor, t.cell, raw, 0);
    yc := BoxField(j.math, j.layer, t.tensor, t.cell, raw, 1);
    w := BoxField(j.math, j.layer, t.tensor, t.cell, raw, 2);
    h := BoxField(j.math, j.layer, t.tensor, t.cell, raw, 3);
    score := maxProb * Objectness(j.math, KernelOf(j.layer, t.tensor), raw);
  }

  method StoreSlot(j: Job, t: Thread, xc: real, yc: real, w: real, h: real, score: real, index: real,
                   boxes: array<real>, scores: array<real>, classes: array<real>)
    requires j.Valid() && j.Has(t) && Fits(j, Contents(boxes, scores, classes))
    requires xc == j.Box(t, 0) && yc == j.Box(t, 1) && w == j.Box(t, 2) && h == j.Box(t, 3)
    requires score == j.Score(t) && index == j.Class(t)
    requires boxes != scores && boxes != classes && scores != classes
    modifies boxes, scores, classes
    ensures Fits(j, Contents(boxes, scores, classes))
    ensures SlotStored(j, t, old(Contents(boxes, scores, classes)), Contents(boxes, scores, classes))
  {
    hide InGrid, Job.Total, Job.SlotOf, FieldAt, Job.Box, Job.Score, Job.Class, SlotStored;
    j.SlotInTotal(t);
    assert forall f: nat | f < 4 :: [xc, yc, w, h][f] == j.Box(t, f);
    ghost var before := Contents(boxes, scores, classes);
    PutSlot(j.Total(), j.SlotOf(t), xc, yc, w, h, score, index, boxes, scores, classes);
    PutIsStored(j, t, before, Contents(boxes, scores, classes));
  }

  // ---------- Launches ----------

  // A slot is as before if none of the threads run has it, and else holds the results of one that has.
  ghost predicate SlotFrom(j: Job, start: Buffers, m: Buffers, run: iset<Thread>, slot: nat)
    requires j.Valid() && Fits(j, start) && Fits(j, m) && slot < j.Total()
  {
    hide InGrid, Job.SlotOf, SameSlot, Holds;
    || (SameSlot(j, start, m, slot) && forall t | t in run && j.Has(t) :: j.SlotOf(t) != slot)
    || exists t :: t in run && j.Has(t) && j.SlotOf(t) == slot && Holds(j, m, t)
  }

  ghost predicate SlotsFrom(j: Job, start: Buffers, m: Buffers, run: iset<Thread>)
    requires j.Valid() && Fits(j, start)
  {
    Fits(j, m) && forall slot: nat | slot < j.Total() :: SlotFrom(j, start, m, run, slot)
  }

  // A store to another slot changes no result of this one.
  lemma SameSlotKeeps(j: Job, start: Buffers, before: Buffers, after: Buffers, slot: nat, u: Thread)
    requires j.Valid() && Fits(j, start) && Fits(j, before) && Fits(j, after) && slot < j.Total()
    requires SameSlot(j, before, after, slot)
    ensures SameSlot(j, start, before, slot) ==> SameSlot(j, start, after, slot)
    ensures j.Has(u) && j.SlotOf(u) == slot && Holds(j, before, u) ==> Holds(j, after, u)
  {
    hide OutAt, Job.SlotOf, InGrid, Job.Result;
  }

  lemma OneMoreSlot(j: Job, start: Buffers, before: Buffers, after: Buffers, run: iset<Thread>, t: Thread, slot: nat)
    requires j.Valid() && Fits(j, start) && Fits(j, before) && Fits(j, after) && slot < j.Total()
    requires SlotFrom(j, start, before, run, slot)
    requires j.Has(t) && SlotStored(j, t, before, after)
    ensures SlotFrom(j, start, after, run + iset{t}, slot)
  {
    hide Job.SlotOf, InGrid, Job.Result, SameSlot, Holds, Job.Total;
    if slot == j.SlotOf(t) {
      assert t in run + iset{t};
    } else {
      SameSlotKeeps(j, start, before, after, slot, t);
      if u :| u in run && j.Has(u) && j.SlotOf(u) == slot && Holds(j, before, u) {
        SameSlotKeeps(j, start, before, after, slot, u);
        assert u in run + iset{t};
      }
    }
  }

  lemma OneMore(j: Job, start: Buffers, before: Buffers, after: Buffers, run: iset<Thread>, t: Thread)
    requires j.Valid() && Fits(j, start) && SlotsFrom(j, start, before, run)
    requires j.Has(t) && Fits(j, after) && SlotStored(j, t, before, after)
    ensures SlotsFrom(j, start, after, run + iset{t})
  {
    hide SlotFrom, SlotStored, InGrid, Job.Total;
    forall slot: nat | slot < j.Total() ensures SlotFrom(j, start, after, run + iset{t}, slot) {
      OneMoreSlot(j, start, before, after, run, t, slot);
    }
  }

  // The threads of the launches before one, and of the whole call.
  ghost function Before(j: Job, tensor: nat, batch: nat): iset<Thread> {
    iset t: Thread | j.Has(t) && (t.tensor < tensor || (t.tensor == tensor && t.batch < batch))
  }

  ghost function All(j: Job): iset<Thread> { iset t: Thread | j.Has(t) }

  // The coordinates of the threads of a launch; those past the edge of the grid return at once.
  function LaunchedIds(i: TensorInfo<real>): set<Cell> {
    set z, y, x | 0 <= z < Blocks(i.numBBoxes, 4) * 4 && 0 <= y < Blocks(i.gridSizeY, 16) * 16
                  && 0 <= x < Blocks(i.gridSizeX, 16) * 16 :: Cell(z, y, x)
  }

  lemma GridIsLaunched(i: TensorInfo<real>, c: Cell)
    requires InGrid(c, i.numBBoxes, i.gridSizeX, i.gridSizeY)
    ensures c in LaunchedIds(i)
  {
  }

  // The threads of a launch whose turn has come.
  ghost function Turned(j: Job, tensor: nat, batch: nat, todo: set<Cell>): iset<Thread> {
    iset t: Thread | j.Has(t) && t.tensor == tensor && t.batch == batch && t.cell !in todo
  }

  method Launch(j: Job, tensor: nat, batch: nat, softmax: array<real>,
                boxes: array<real>, scores: array<real>, classes: array<real>, ghost start: Buffers)
    requires j.Valid() && batch < j.batches && tensor < |j.layer.tensors| && Fits(j, start)
    requires SlotsFrom(j, start, Contents(boxes, scores, classes), Before(j, tensor, batch))
    requires softmax.Length == j.batches * j.TensorInput(tensor)
    requires boxes != scores && boxes != classes && scores != classes && softmax !in {boxes, scores, classes}
    modifies softmax, boxes, scores, classes
    ensures SlotsFrom(j, start, Contents(boxes, scores, classes), Before(j, tensor, batch + 1))
  {
    hide SlotFrom, SlotStored, LaunchedIds, Slot, InGrid;
    var todo := LaunchedIds(j.layer.tensors[tensor]);
    forall t | j.Has(t) && t.tensor == tensor ensures t.cell in todo {
      GridIsLaunched(j.layer.tensors[tensor], t.cell);
    }
    ghost var before := Before(j, tensor, batch);
    assert before + Turned(j, tensor, batch, todo) == before;
    while todo != {}
      invariant SlotsFrom(j, start, Contents(boxes, scores, classes), before + Turned(j, tensor, batch, todo))
      decreases todo
    {
      hide SlotsFrom;
      var id :| id in todo;
      ghost var (was, t) := (Contents(boxes, scores, classes), Thread(batch, tensor, id));
      FitsOfSlots(j, start, was, before + Turned(j, tensor, batch, todo));
      RunThread(j, Thread(batch, tensor, id), softmax, boxes, scores, classes);
      if j.Has(t) {
        OneMore(j, start, was, Contents(boxes, scores, classes), before + Turned(j, tensor, batch, todo), t);
        assert before + Turned(j, tensor, batch, todo) + iset{t} == before + Turned(j, tensor, batch, todo - {id});
      } else {
        assert before + Turned(j, tensor, batch, todo) == before + Turned(j, tensor, batch, todo - {id});
      }
      todo := todo - {id};
    }
    assert before + Turned(j, tensor, batch, {}) == Before(j, tensor, batch + 1);
  }

  lemma FitsOfSlots(j: Job, start: Buffers, m: Buffers, run: iset<Thread>)
    requires j.Valid() && Fits(j, start) && SlotsFrom(j, start, m, run)
    ensures Fits(j, m)
  {
  }

  // cudaYoloLayer, cudaYoloLayer_nc and cudaRegionLayer: one launch for each batch.
  method LaunchBatches(j: Job, tensor: nat, softmax: array<real>,
                       boxes: array<real>, scores: array<real>, classes: array<real>, ghost start: Buffers)
    requires j.Valid() && tensor < |j.layer.tensors| && Fits(j, start)
    requires SlotsFrom(j, start, Contents(boxes, scores, classes), Before(j, tensor, 0))
    requires softmax.Length == j.batches * j.TensorInput(tensor)
    requires boxes != scores && boxes != classes && scores != classes && softmax !in {boxes, scores, classes}
    modifies softmax, boxes, scores, classes
    ensures SlotsFrom(j, start, Contents(boxes, scores, classes), Before(j, tensor + 1, 0))
  {
    hide SlotsFrom, Slot, InGrid;
    for batch := 0 to j.batches
      invariant SlotsFrom(j, start, Contents(boxes, scores, classes), Before(j, tensor, batch))
    {
      Launch(j, tensor, batch, softmax, boxes, scores, classes, start);
    }
    assert Before(j, tensor, j.batches) == Before(j, tensor + 1, 0);
  }

  lemma NothingRun(j: Job, start: Buffers)
    requires j.Valid() && Fits(j, start)
    ensures SlotsFrom(j, start, start, iset{})
  {
  }

  // Slots from one thread each are places from threads.
  lemma SlotsGivePlaces(j: Job, start: Buffers, m: Buffers)
    requires j.Valid() && Fits(j, start) && SlotsFrom(j, start, m, All(j))
    ensures FromThreads(j, start, m)
  {
    hide OutAt, Job.SlotOf, InGrid, Job.Result;
    forall q: nat, slot: nat | q < 6 && slot < j.Total() ensures PlaceFrom(j, start, m, q, slot) {
      assert SlotFrom(j, start, m, All(j), slot);
      if t :| t in All(j) && j.Has(t) && j.SlotOf(t) == slot && Holds(j, m, t) {
        assert OutAt(j, m, q, slot) == j.Result(t, q);
      } else {
        assert forall t | j.Has(t) :: t in All(j);
      }
    }
  }

  /** One enqueue over buffers of any contents, with the threads of each launch in any order: a slot ends with the
      results of one of its threads, and without a thread as it was. Grids that are square or one row high end in
      the reference. */
  method Enqueue(j: Job, boxes: array<real>, scores: array<real>, classes: array<real>)
    requires j.Valid() && Fits(j, Contents(boxes, scores, classes))
    requires boxes != scores && boxes != classes && scores != classes
    modifies boxes, scores, classes
    ensures SlotsFrom(j, old(Contents(boxes, scores, classes)), Contents(boxes, scores, classes), All(j))
    ensures ShapesOk(j.layer.tensors) ==> Contents(boxes, scores, classes) == Reference(j)
  {
    hide SlotsFrom, Slot, InGrid, Reference, ShapesOk;
    ghost var start := Contents(boxes, scores, classes);
    NothingRun(j, start);
    assert Before(j, 0, 0) == iset{};
    for i := 0 to |j.layer.tensors|
      invariant SlotsFrom(j, start, Contents(boxes, scores, classes), Before(j, i, 0))
    {
      var softmax := new real[j.batches * j.TensorInput(i)](_ => 0.0);
      LaunchBatches(j, i, softmax, boxes, scores, classes, start);
    }
    assert Before(j, |j.layer.tensors|, 0) == All(j);
    FitsOfSlots(j, start, Contents(boxes, scores, classes), All(j));
    SlotsGivePlaces(j, start, Contents(boxes, scores, classes));
    if ShapesOk(j.layer.tensors) { OneThreadPerSlot(j, start, Contents(boxes, scores, classes)); }
  }
}
