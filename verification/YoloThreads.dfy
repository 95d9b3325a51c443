/** All the threads of one enqueue, of every batch and tensor, running at once and interleaved store by
    store. A region thread first fills its softmax cells, then divides them, then writes its slot. */
module YoloThreads {
  import opened YoloSlots
  import opened YoloLayout
  import opened YoloValues
  import opened YoloJob

  // The softmax buffers, one per tensor, laid out like the inputs.
  type Cells = seq<seq<real>>

  // pc counts the stores a thread has made; a thread that is not in the map has made none.
  datatype State = State(out: Buffers, cells: Cells, pc: map<Thread, nat>)

  function PcOf(s: State, t: Thread): nat { if t in s.pc then s.pc[t] else 0 }

  ghost predicate CellsFit(j: Job, m: Cells)
    requires j.Valid()
  {
    |m| == |j.layer.tensors| && forall i | 0 <= i < |m| :: |m[i]| == j.batches * j.TensorInput(i)
  }

  ghost predicate Sized(j: Job, s: State)
    requires j.Valid()
  {
    Fits(j, s.out) && CellsFit(j, s.cells)
  }

  // The stores before the six output stores.
  ghost function Preamble(j: Job, t: Thread): nat
    requires j.Valid() && j.Has(t)
  {
    if KernelOf(j.layer, t.tensor) == Region then 2 * j.layer.numClasses else 0
  }

  ghost function Length(j: Job, t: Thread): nat
    requires j.Valid() && j.Has(t)
  {
    Preamble(j, t) + 6
  }

  ghost function ClassFields(j: Job, t: Thread): (v: seq<real>)
    requires j.Valid() && j.Has(t)
    ensures |v| == j.layer.numClasses
  {
    j.Raw(t)[5..]
  }

  // The thread's softmax cell of class k.
  ghost function Cell(j: Job, m: Cells, t: Thread, k: nat): real
    requires j.Valid() && CellsFit(j, m) && j.Has(t) && k < j.layer.numClasses
  {
    j.ClassIndexBound(t, k);
    m[t.tensor][j.ClassIndex(t, k)]
  }

  ghost function PutCell(j: Job, m: Cells, t: Thread, k: nat, v: real): (r: Cells)
    requires j.Valid() && CellsFit(j, m) && j.Has(t) && k < j.layer.numClasses
    ensures CellsFit(j, r)
  {
    j.ClassIndexBound(t, k);
    m[t.tensor := m[t.tensor][j.ClassIndex(t, k) := v]]
  }

  // What the thread reads in its own softmax cells now; the other kernels have none.
  ghost function OwnCells(j: Job, m: Cells, t: Thread): (v: seq<real>)
    requires j.Valid() && CellsFit(j, m) && j.Has(t)
    ensures |v| == j.layer.numClasses
  {
    seq(j.layer.numClasses, k requires 0 <= k < j.layer.numClasses => Cell(j, m, t, k))
  }

  ghost function ChoiceNow(j: Job, m: Cells, t: Thread): Winner
    requires j.Valid() && CellsFit(j, m) && j.Has(t)
  {
    Best(ClassProbs(j.math, KernelOf(j.layer, t.tensor), j.Raw(t), OwnCells(j, m, t)))
  }

  // ---------- The step of a thread: its next store ----------

  ghost predicate Enabled(j: Job, s: State, t: Thread)
    requires j.Valid()
  {
    j.Has(t) && PcOf(s, t) < Length(j, t)
  }

  // The class whose cell is stored at p, and the value: first the exponential, then the quotient.
  function ClassAt(j: Job, p: nat): nat { if p < j.layer.numClasses then p else p - j.layer.numClasses }

  ghost function CellStore(j: Job, m: Cells, t: Thread, p: nat): real
    requires j.Valid() && CellsFit(j, m) && j.Has(t) && p < 2 * j.layer.numClasses
  {
    var vals := ClassFields(j, t);
    if p < j.layer.numClasses then Exponential(j.math, vals, p)
    else
      var es := Exponentials(j.math, vals);
      SumPositive(es, |es|);
      Cell(j, m, t, ClassAt(j, p)) / Sum(es, |es|)
  }

  // Output store q: the four fields of the box, the score, the class.
  ghost function PutOut(j: Job, o: Buffers, w: Winner, t: Thread, q: nat): (r: Buffers)
    requires j.Valid() && Fits(j, o) && j.Has(t) && q < 6
    ensures Fits(j, r)
  {
    j.SlotInTotal(t);
    var slot := j.SlotOf(t);
    if q < 4 then o.(boxes := o.boxes[FieldAt(slot, q) := j.Box(t, q)])
    else if q == 4 then
      o.(scores := o.scores[slot := w.prob * Objectness(j.math, KernelOf(j.layer, t.tensor), j.Raw(t))])
    else o.(classes := o.classes[slot := w.index as real])
  }

  ghost function Step(j: Job, s: State, t: Thread): (r: State)
    requires j.Valid() && Sized(j, s) && Enabled(j, s, t)
    ensures Sized(j, r)
  {
    var (p, pre) := (PcOf(s, t), Preamble(j, t));
    if p < pre then
      s.(cells := PutCell(j, s.cells, t, ClassAt(j, p), CellStore(j, s.cells, t, p)), pc := s.pc[t := p + 1])
    else s.(out := PutOut(j, s.out, ChoiceNow(j, s.cells, t), t, p - pre), pc := s.pc[t := p + 1])
  }

  // ---------- The invariant ----------

  // After p stores of its preamble a region thread's softmax cells hold this.
  ghost predicate CellsDone(j: Job, m: Cells, t: Thread, p: nat)
    requires j.Valid() && CellsFit(j, m) && j.Has(t)
  {
    var (c, vals) := (j.layer.numClasses, ClassFields(j, t));
    KernelOf(j.layer, t.tensor) == Region ==>
      forall k | 0 <= k < c ::
        && (c + k < p ==> Cell(j, m, t, k) == Softmax(j.math, vals)[k])
        && (k < p <= c + k ==> Cell(j, m, t, k) == Exponential(j.math, vals, k))
  }

  ghost predicate ThreadInv(j: Job, s: State, t: Thread)
    requires j.Valid() && Sized(j, s) && j.Has(t)
  {
    PcOf(s, t) <= Length(j, t) && CellsDone(j, s.cells, t, PcOf(s, t))
  }

  // Thread t has stored its result q.
  ghost predicate Stored(j: Job, s: State, t: Thread, q: nat)
    requires j.Valid() && j.Has(t)
  {
    PcOf(s, t) > Preamble(j, t) + q
  }

  // A place is as at the start until a thread of its slot stores there, and then holds what one of them stored.
  ghost predicate PlaceInv(j: Job, start: Buffers, s: State, q: nat, slot: nat)
    requires j.Valid() && Fits(j, start) && Sized(j, s) && q < 6 && slot < j.Total()
  {
    || (OutAt(j, s.out, q, slot) == OutAt(j, start, q, slot)
        && forall t | j.Has(t) && j.SlotOf(t) == slot :: !Stored(j, s, t, q))
    || exists t: Thread ::
        j.Has(t) && j.SlotOf(t) == slot && Stored(j, s, t, q) && OutAt(j, s.out, q, slot) == j.Result(t, q)
  }

  ghost predicate PlacesInv(j: Job, start: Buffers, s: State)
    requires j.Valid() && Fits(j, start) && Sized(j, s)
  {
    forall q: nat, slot: nat | q < 6 && slot < j.Total() :: PlaceInv(j, start, s, q, slot)
  }

  ghost predicate Inv(j: Job, start: Buffers, s: State)
    requires j.Valid() && Fits(j, start)
  {
    Sized(j, s) && (forall t | j.Has(t) :: ThreadInv(j, s, t)) && PlacesInv(j, start, s)
  }

  // ---------- Stores of the softmax ----------

  // A store changes no other thread's cell.
  lemma PutCellRead(j: Job, m: Cells, t: Thread, k: nat, v: real, u: Thread, l: nat)
    requires j.Valid() && CellsFit(j, m) && j.Has(t) && k < j.layer.numClasses && j.Has(u) && l < j.layer.numClasses
    ensures Cell(j, PutCell(j, m, t, k, v), u, l) == if u == t && l == k then v else Cell(j, m, u, l)
  {
    hide Job.ClassIndex, InGrid;
    j.ClassIndexBound(t, k);
    j.ClassIndexBound(u, l);
    if u.tensor == t.tensor && (u != t || l != k) { j.ClassIndexesDiffer(t, k, u, l); }
  }

  lemma CellStepOwn(j: Job, m: Cells, t: Thread, p: nat)
    requires j.Valid() && CellsFit(j, m) && j.Has(t) && p < Preamble(j, t) && CellsDone(j, m, t, p)
    ensures CellsDone(j, PutCell(j, m, t, ClassAt(j, p), CellStore(j, m, t, p)), t, p + 1)
  {
    hide Exponential, Sum, Cell, PutCell, InGrid;
    forall l | 0 <= l < j.layer.numClasses
      ensures Cell(j, PutCell(j, m, t, ClassAt(j, p), CellStore(j, m, t, p)), t, l)
           == if l == ClassAt(j, p) then CellStore(j, m, t, p) else Cell(j, m, t, l)
    {
      PutCellRead(j, m, t, ClassAt(j, p), CellStore(j, m, t, p), t, l);
    }
  }

  lemma CellStepOther(j: Job, m: Cells, t: Thread, k: nat, v: real, u: Thread, p: nat)
    requires j.Valid() && CellsFit(j, m) && j.Has(t) && k < j.layer.numClasses
    requires j.Has(u) && u != t && CellsDone(j, m, u, p)
    ensures CellsDone(j, PutCell(j, m, t, k, v), u, p)
  {
    hide Exponential, Softmax, Cell, PutCell, InGrid;
    forall l | 0 <= l < j.layer.numClasses ensures Cell(j, PutCell(j, m, t, k, v), u, l) == Cell(j, m, u, l) {
      PutCellRead(j, m, t, k, v, u, l);
    }
  }

  // Once the preamble is over the thread chooses its class from the complete softmax.
  lemma ChoiceSettled(j: Job, m: Cells, t: Thread, p: nat)
    requires j.Valid() && CellsFit(j, m) && j.Has(t) && CellsDone(j, m, t, p) && p >= Preamble(j, t)
    ensures ChoiceNow(j, m, t) == Choice(j.math, KernelOf(j.layer, t.tensor), j.Raw(t))
  {
    hide Best, ClassProb, Cell, Softmax, InGrid;
    var kernel, raw, cells := KernelOf(j.layer, t.tensor), j.Raw(t), OwnCells(j, m, t);
    if kernel == Region {
      assert cells == Softmax(j.math, raw[5..]);
    } else {
      KernelIgnoresCells(j.math, kernel, raw, cells, Softmax(j.math, raw[5..]));
    }
  }

  lemma KernelIgnoresCells(m: Math, kernel: Kernel, raw: seq<real>, a: seq<real>, b: seq<real>)
    requires |raw| == 5 + |a| && |a| == |b| && kernel != Region
    ensures ClassProbs(m, kernel, raw, a) == ClassProbs(m, kernel, raw, b)
  {
  }

  // ---------- Stores of the outputs ----------

  // One store into a sequence of fields, four to a slot.
  lemma FieldStore(boxes: seq<real>, slot: nat, q: nat, v: real, other: nat, f: nat)
    requires 4 * slot + 4 <= |boxes| && 4 * other + 4 <= |boxes| && q < 4 && f < 4
    ensures boxes[FieldAt(slot, q) := v][FieldAt(other, f)]
         == if other == slot && f == q then v else boxes[FieldAt(other, f)]
  {
  }

  // An output store of a thread that has chosen its class changes one place, to the thread's result.
  lemma PutOutAt(j: Job, o: Buffers, t: Thread, q: nat, q': nat, slot: nat)
    requires j.Valid() && Fits(j, o) && j.Has(t) && q < 6 && q' < 6 && slot < j.Total()
    ensures OutAt(j, PutOut(j, o, Choice(j.math, KernelOf(j.layer, t.tensor), j.Raw(t)), t, q), q', slot)
         == if q' == q && slot == j.SlotOf(t) then j.Result(t, q) else OutAt(j, o, q', slot)
  {
    hide Job.Box, Job.SlotOf, Job.Total, Choice, Objectness, InGrid, FieldAt;
    j.SlotInTotal(t);
    if q < 4 && q' < 4 { FieldStore(o.boxes, j.SlotOf(t), q, j.Box(t, q), slot, q'); }
  }

  // ---------- Every step keeps the invariant ----------

  lemma PreambleStep(j: Job, s: State, t: Thread)
    requires j.Valid() && Sized(j, s) && Enabled(j, s, t) && ThreadInv(j, s, t) && PcOf(s, t) < Preamble(j, t)
    ensures ThreadInv(j, Step(j, s, t), t)
  {
    hide PutCell, PutOut, CellStore, ChoiceNow, InGrid, CellsDone;
    CellStepOwn(j, s.cells, t, PcOf(s, t));
  }

  lemma OutputStep(j: Job, s: State, t: Thread)
    requires j.Valid() && Sized(j, s) && Enabled(j, s, t) && ThreadInv(j, s, t) && PcOf(s, t) >= Preamble(j, t)
    ensures ThreadInv(j, Step(j, s, t), t)
    ensures Step(j, s, t).out
         == PutOut(j, s.out, Choice(j.math, KernelOf(j.layer, t.tensor), j.Raw(t)), t, PcOf(s, t) - Preamble(j, t))
  {
    hide PutCell, PutOut, CellStore, ChoiceNow, InGrid, CellsDone, Choice;
    ChoiceSettled(j, s.cells, t, PcOf(s, t));
    CellsStay(j, s.cells, t, PcOf(s, t));
  }

  lemma CellsStay(j: Job, m: Cells, t: Thread, p: nat)
    requires j.Valid() && CellsFit(j, m) && j.Has(t) && CellsDone(j, m, t, p) && p >= Preamble(j, t)
    ensures CellsDone(j, m, t, p + 1)
  {
  }

  lemma StepOther(j: Job, s: State, t: Thread, u: Thread)
    requires j.Valid() && Sized(j, s) && Enabled(j, s, t) && j.Has(u) && u != t && ThreadInv(j, s, u)
    ensures ThreadInv(j, Step(j, s, t), u)
  {
    hide PutCell, PutOut, CellStore, ChoiceNow, InGrid, CellsDone;
    var p, pre := PcOf(s, t), Preamble(j, t);
    if p < pre { CellStepOther(j, s.cells, t, ClassAt(j, p), CellStore(j, s.cells, t, p), u, PcOf(s, u)); }
  }

  // The step of t counts one store of t.
  lemma StepCounts(j: Job, s: State, t: Thread, u: Thread)
    requires j.Valid() && Sized(j, s) && Enabled(j, s, t)
    ensures PcOf(Step(j, s, t), u) == if u == t then PcOf(s, t) + 1 else PcOf(s, u)
    ensures PcOf(s, t) < Preamble(j, t) ==> Step(j, s, t).out == s.out
  {
    hide PutCell, PutOut, CellStore, ChoiceNow, InGrid;
  }

  // No place changes, and no store to one is counted.
  lemma PreamblePlace(j: Job, start: Buffers, s: State, t: Thread, q: nat, slot: nat)
    requires j.Valid() && Fits(j, start) && Sized(j, s) && Enabled(j, s, t) && PcOf(s, t) < Preamble(j, t)
    requires q < 6 && slot < j.Total() && PlaceInv(j, start, s, q, slot)
    ensures PlaceInv(j, start, Step(j, s, t), q, slot)
  {
    hide Step, PcOf, Preamble, InGrid, OutAt, Job.Result, Job.SlotOf;
    forall u | j.Has(u) ensures Stored(j, Step(j, s, t), u, q) == Stored(j, s, u, q) { StepCounts(j, s, t, u); }
    StepCounts(j, s, t, t);
  }

  // The one place stored to holds t's result; the others stay, and t's store is not one of theirs.
  lemma OutputPlace(j: Job, start: Buffers, s: State, t: Thread, q: nat, slot: nat)
    requires j.Valid() && Fits(j, start) && Sized(j, s) && Enabled(j, s, t) && PcOf(s, t) >= Preamble(j, t)
    requires q < 6 && slot < j.Total() && PlaceInv(j, start, s, q, slot) && ThreadInv(j, s, t)
    ensures PlaceInv(j, start, Step(j, s, t), q, slot)
  {
    hide Step, PutOut, PcOf, Preamble, InGrid, OutAt, Job.Result, Job.SlotOf, CellsDone, Choice;
    var p := PcOf(s, t) - Preamble(j, t);
    OutputStep(j, s, t);
    PutOutAt(j, s.out, t, p, q, slot);
    forall u | j.Has(u) ensures Stored(j, Step(j, s, t), u, q) == (Stored(j, s, u, q) || (u == t && q == p)) {
      StepCounts(j, s, t, u);
    }
  }

  lemma StepKeepsPlaces(j: Job, start: Buffers, s: State, t: Thread)
    requires j.Valid() && Fits(j, start) && Inv(j, start, s) && Enabled(j, s, t)
    ensures PlacesInv(j, start, Step(j, s, t))
  {
    hide Step, ThreadInv, Sized, PlaceInv, InGrid;
    forall q: nat, slot: nat | q < 6 && slot < j.Total() ensures PlaceInv(j, start, Step(j, s, t), q, slot) {
      if PcOf(s, t) < Preamble(j, t) { PreamblePlace(j, start, s, t, q, slot); }
      else { OutputPlace(j, start, s, t, q, slot); }
    }
  }

  lemma StepKeepsInv(j: Job, start: Buffers, s: State, t: Thread)
    requires j.Valid() && Fits(j, start) && Inv(j, start, s) && Enabled(j, s, t)
    ensures Inv(j, start, Step(j, s, t))
  {
    hide Step, ThreadInv, Sized, Job.Has, PlacesInv;
    StepKeepsPlaces(j, start, s, t);
    forall u | j.Has(u) ensures ThreadInv(j, Step(j, s, t), u) {
      assert ThreadInv(j, s, u);
      if u != t {
        StepOther(j, s, t, u);
      } else if PcOf(s, t) < Preamble(j, t) {
        PreambleStep(j, s, t);
      } else {
        OutputStep(j, s, t);
      }
    }
  }

  // ---------- Runs ----------

  // The states visited under a schedule, from any contents of the buffers.
  ghost predicate IsRun(j: Job, trace: seq<State>, schedule: seq<Thread>)
    requires j.Valid()
  {
    && |trace| == |schedule| + 1
    && Sized(j, trace[0]) && trace[0].pc == map[]
    && forall i | 0 <= i < |schedule| :: Moves(j, trace[i], schedule[i], trace[i + 1])
  }

  ghost predicate Moves(j: Job, s: State, t: Thread, r: State)
    requires j.Valid()
  {
    Sized(j, s) && Enabled(j, s, t) && r == Step(j, s, t)
  }

  ghost predicate Finished(j: Job, s: State)
    requires j.Valid()
  {
    forall t | j.Has(t) :: PcOf(s, t) == Length(j, t)
  }

  lemma {:induction false} RunKeepsInv(j: Job, trace: seq<State>, schedule: seq<Thread>, n: nat)
    requires j.Valid() && IsRun(j, trace, schedule) && n <= |schedule|
    ensures Inv(j, trace[0].out, trace[n])
  {
    hide Step, ThreadInv, Enabled, PlacesInv;
    if n == 0 {
      forall t | j.Has(t) ensures ThreadInv(j, trace[0], t) { StartHolds(j, trace[0], t); }
      StartPlaces(j, trace[0]);
    } else {
      RunKeepsInv(j, trace, schedule, n - 1);
      assert Moves(j, trace[n - 1], schedule[n - 1], trace[n - 1 + 1]);
      StepKeepsInv(j, trace[0].out, trace[n - 1], schedule[n - 1]);
    }
  }

  lemma StartHolds(j: Job, s: State, t: Thread)
    requires j.Valid() && Sized(j, s) && s.pc == map[] && j.Has(t)
    ensures ThreadInv(j, s, t)
  {
    hide Softmax, Exponential;
  }

  lemma StartPlaces(j: Job, s: State)
    requires j.Valid() && Sized(j, s) && s.pc == map[]
    ensures PlacesInv(j, s.out, s)
  {
    hide InGrid, OutAt, Job.SlotOf, Preamble, Job.Result;
  }

  // When all threads are done, a place no thread has stored to has no thread.
  lemma FinalPlace(j: Job, start: Buffers, s: State, q: nat, slot: nat)
    requires j.Valid() && Fits(j, start) && Sized(j, s) && Finished(j, s)
    requires q < 6 && slot < j.Total() && PlaceInv(j, start, s, q, slot)
    ensures PlaceFrom(j, start, s.out, q, slot)
  {
    hide InGrid, OutAt, Job.SlotOf, Preamble, Job.Result;
  }

  /** Every interleaving of the stores of all threads that runs to the end leaves in each place what a thread of its
      slot stores, and the places without a thread as they were. Grids that are square or one row high, whose
      threads have slots of their own, always end in the same buffers. */
  lemma EveryScheduleGivesReference(j: Job, trace: seq<State>, schedule: seq<Thread>)
    requires j.Valid() && IsRun(j, trace, schedule) && Finished(j, trace[|schedule|])
    ensures Fits(j, trace[0].out) && Fits(j, trace[|schedule|].out)
    ensures FromThreads(j, trace[0].out, trace[|schedule|].out)
    ensures ShapesOk(j.layer.tensors) ==> trace[|schedule|].out == Reference(j)
  {
    hide PlaceFrom, PlaceInv, ThreadInv, Moves, Reference, InGrid, ShapesOk, Finished, Fits, CellsFit;
    var (start, s) := (trace[0].out, trace[|schedule|]);
    RunKeepsInv(j, trace, schedule, |schedule|);
    forall q: nat, slot: nat | q < 6 && slot < j.Total() ensures PlaceFrom(j, start, s.out, q, slot) {
      FinalPlace(j, start, s, q, slot);
    }
    if ShapesOk(j.layer.tensors) { OneThreadPerSlot(j, start, s.out); }
  }
}
