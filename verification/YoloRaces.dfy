/** What sharing a slot costs: of two threads with the same slot and different results, the one that runs last
    decides, so that two schedules of one call end in different buffers. */
module YoloRaces {
  import opened YoloSlots
  import opened YoloLayout
  import opened YoloValues
  import opened YoloJob
  import opened YoloThreads

  // ---------- Pieces of runs ----------

  ghost predicate Path(j: Job, trace: seq<State>, schedule: seq<Thread>)
    requires j.Valid()
  {
    |trace| == |schedule| + 1 && forall i | 0 <= i < |schedule| :: Moves(j, trace[i], schedule[i], trace[i + 1])
  }

  lemma PathsJoin(j: Job, a: seq<State>, s: seq<Thread>, b: seq<State>, t: seq<Thread>)
    requires j.Valid() && Path(j, a, s) && Path(j, b, t) && a[|s|] == b[0]
    ensures Path(j, a + b[1..], s + t) && (a + b[1..])[|s + t|] == b[|t|] && (a + b[1..])[0] == a[0]
  {
    hide Moves;
    var (c, u) := (a + b[1..], s + t);
    forall i | 0 <= i < |u| ensures Moves(j, c[i], u[i], c[i + 1]) {
      if i < |s| {
        assert Moves(j, a[i], s[i], a[i + 1]);
      } else {
        assert Moves(j, b[i - |s|], t[i - |s|], b[i - |s| + 1]);
      }
    }
  }

  // The results thread t has stored so far are in its slot.
  ghost predicate OwnStored(j: Job, s: State, t: Thread)
    requires j.Valid() && Sized(j, s) && j.Has(t)
  {
    j.SlotInTotal(t);
    forall q: nat | q < 6 && Stored(j, s, t, q) :: OutAt(j, s.out, q, j.SlotOf(t)) == j.Result(t, q)
  }

  lemma StepKeepsOwn(j: Job, start: Buffers, s: State, t: Thread)
    requires j.Valid() && Fits(j, start) && Inv(j, start, s) && Enabled(j, s, t) && OwnStored(j, s, t)
    ensures OwnStored(j, Step(j, s, t), t)
  {
    hide Step, PutOut, InGrid, OutAt, Job.Result, Job.SlotOf, CellsDone, Choice, Preamble, PlacesInv;
    j.SlotInTotal(t);
    StepCounts(j, s, t, t);
    var p := PcOf(s, t) - Preamble(j, t);
    if p >= 0 {
      OutputStep(j, s, t);
      forall q: nat | q < 6 && Stored(j, Step(j, s, t), t, q)
        ensures OutAt(j, Step(j, s, t).out, q, j.SlotOf(t)) == j.Result(t, q)
      {
        PutOutAt(j, s.out, t, p, q, j.SlotOf(t));
      }
    }
  }

  // Thread t runs to its end, alone.
  lemma {:induction false} RunOne(j: Job, start: Buffers, s: State, t: Thread)
    returns (trace: seq<State>, schedule: seq<Thread>)
    requires j.Valid() && Fits(j, start) && Inv(j, start, s) && j.Has(t) && OwnStored(j, s, t)
    ensures Path(j, trace, schedule) && trace[0] == s
    ensures var e := trace[|schedule|];
      && Inv(j, start, e) && OwnStored(j, e, t) && PcOf(e, t) == Length(j, t)
      && forall u | u != t :: PcOf(e, u) == PcOf(s, u)
    decreases Length(j, t) - PcOf(s, t)
  {
    hide Step, OwnStored, InGrid, PlacesInv, CellsDone, Preamble;
    assert ThreadInv(j, s, t);
    if PcOf(s, t) == Length(j, t) {
      trace, schedule := [s], [];
    } else {
      StepKeepsInv(j, start, s, t);
      StepKeepsOwn(j, start, s, t);
      forall u ensures PcOf(Step(j, s, t), u) == if u == t then PcOf(s, t) + 1 else PcOf(s, u) {
        StepCounts(j, s, t, u);
      }
      var more, turns := RunOne(j, start, Step(j, s, t), t);
      PathsJoin(j, [s, Step(j, s, t)], [t], more, turns);
      trace, schedule := [s, Step(j, s, t)] + more[1..], [t] + turns;
    }
  }

  lemma NothingStored(j: Job, s: State, t: Thread)
    requires j.Valid() && Sized(j, s) && j.Has(t) && PcOf(s, t) == 0
    ensures OwnStored(j, s, t)
  {
  }

  // Threads that have not started run to their ends, one after the other.
  lemma {:induction false} RunMany(j: Job, start: Buffers, s: State, todo: set<Thread>)
    returns (trace: seq<State>, schedule: seq<Thread>)
    requires j.Valid() && Fits(j, start) && Inv(j, start, s)
    requires forall t | t in todo :: j.Has(t) && PcOf(s, t) == 0
    ensures Path(j, trace, schedule) && trace[0] == s
    ensures var e := trace[|schedule|];
      && Inv(j, start, e)
      && (forall t | t in todo :: j.Has(t) && PcOf(e, t) == Length(j, t))
      && forall u | u !in todo :: PcOf(e, u) == PcOf(s, u)
    decreases todo
  {
    hide OwnStored, InGrid, PlacesInv, ThreadInv, Preamble, Length, Path;
    if todo == {} {
      trace, schedule := [s], [];
      Still(j, s);
    } else {
      var t :| t in todo;
      NothingStored(j, s, t);
      var one, turns := RunOne(j, start, s, t);
      PathLength(j, one, turns);
      var rest, others := RunMany(j, start, one[|turns|], todo - {t});
      PathLength(j, rest, others);
      PathsJoin(j, one, turns, rest, others);
      trace, schedule := one + rest[1..], turns + others;
      PathLength(j, trace, schedule);
    }
  }

  lemma Still(j: Job, s: State)
    requires j.Valid()
    ensures Path(j, [s], [])
  {
  }

  lemma PathLength(j: Job, trace: seq<State>, schedule: seq<Thread>)
    requires j.Valid() && Path(j, trace, schedule)
    ensures |trace| == |schedule| + 1
  {
  }

  // ---------- The last thread decides ----------

  ghost function AllThreads(j: Job): set<Thread> {
    set b, i, z, y, x |
      0 <= b < j.batches && 0 <= i < |j.layer.tensors| && 0 <= z < j.layer.tensors[i].numBBoxes
      && 0 <= y < j.layer.tensors[i].gridSizeY && 0 <= x < j.layer.tensors[i].gridSizeX ::
      Thread(b, i, Cell.Cell(z, y, x))
  }

  lemma AllThreadsAreAll(j: Job, t: Thread)
    ensures t in AllThreads(j) <==> j.Has(t)
  {
    if j.Has(t) { assert t == Thread(t.batch, t.tensor, Cell.Cell(t.cell.z, t.cell.y, t.cell.x)); }
  }

  // Nothing has run.
  ghost predicate AtStart(j: Job, s: State)
    requires j.Valid()
  {
    Sized(j, s) && s.pc == map[]
  }

  /** Any thread can run last, and then its slot holds its results. */
  lemma LastDecides(j: Job, s: State, t: Thread) returns (trace: seq<State>, schedule: seq<Thread>)
    requires j.Valid() && AtStart(j, s) && j.Has(t)
    ensures IsRun(j, trace, schedule) && trace[0] == s && Finished(j, trace[|schedule|])
    ensures Fits(j, trace[|schedule|].out) && Holds(j, trace[|schedule|].out, t)
  {
    hide InGrid, PlacesInv, ThreadInv, Preamble, OutAt, Job.Result, Job.SlotOf;
    StartInv(j, s);
    var others := AllThreads(j) - {t};
    forall u ensures u in AllThreads(j) <==> j.Has(u) { AllThreadsAreAll(j, u); }
    var first, turns := RunMany(j, s.out, s, others);
    var e := first[|turns|];
    NothingStored(j, e, t);
    var last, own := RunOne(j, s.out, e, t);
    PathsJoin(j, first, turns, last, own);
    trace, schedule := first + last[1..], turns + own;
    AllStored(j, last[|own|], t);
  }

  lemma StartInv(j: Job, s: State)
    requires j.Valid() && AtStart(j, s)
    ensures Inv(j, s.out, s)
  {
    hide ThreadInv, PlacesInv, InGrid;
    forall t | j.Has(t) ensures ThreadInv(j, s, t) { StartHolds(j, s, t); }
    StartPlaces(j, s);
  }

  lemma AllStored(j: Job, s: State, t: Thread)
    requires j.Valid() && Sized(j, s) && j.Has(t) && OwnStored(j, s, t) && PcOf(s, t) == Length(j, t)
    ensures Holds(j, s.out, t)
  {
    hide InGrid, OutAt, Job.Result, Job.SlotOf, Preamble;
  }

  /** Two threads with one slot and different results make the outcome a matter of the schedule. */
  lemma OrderMatters(j: Job, s: State, t: Thread, u: Thread, q: nat)
    returns (a: seq<State>, first: seq<Thread>, b: seq<State>, second: seq<Thread>)
    requires j.Valid() && AtStart(j, s) && j.Has(t) && j.Has(u) && q < 6
    requires j.SlotOf(t) == j.SlotOf(u) && j.Result(t, q) != j.Result(u, q)
    ensures IsRun(j, a, first) && a[0] == s && Finished(j, a[|first|])
    ensures IsRun(j, b, second) && b[0] == s && Finished(j, b[|second|])
    ensures a[|first|].out != b[|second|].out
  {
    hide InGrid, IsRun, Finished, OutAt, Job.Result, Job.SlotOf;
    RunHasLength(j);
    a, first := LastDecides(j, s, t);
    b, second := LastDecides(j, s, u);
    j.SlotInTotal(t);
    assert OutAt(j, a[|first|].out, q, j.SlotOf(t)) == j.Result(t, q);
    assert OutAt(j, b[|second|].out, q, j.SlotOf(u)) == j.Result(u, q);
  }

  lemma RunHasLength(j: Job)
    requires j.Valid()
    ensures forall trace, schedule | IsRun(j, trace, schedule) :: |trace| == |schedule| + 1
  {
  }

  // ---------- Wide grids ----------

  // A call with zeros for input.
  ghost function ZeroJob(math: Math, layer: Layer, batches: nat): (j: Job)
    ensures j.math == math && j.layer == layer && j.batches == batches && |j.inputs| == |layer.tensors|
    ensures forall i | 0 <= i < |j.inputs| ::
      |j.inputs[i]| == batches * j.TensorInput(i) && forall k | 0 <= k < |j.inputs[i]| :: j.inputs[i][k] == 0.0
  {
    var shape := Job(math, layer, batches, []);
    Job(math, layer, batches,
        seq(|layer.tensors|, i requires 0 <= i < |layer.tensors| => seq(batches * shape.TensorInput(i), _ => 0.0)))
  }

  lemma ZeroFields(math: Math, layer: Layer, batches: nat, t: Thread, k: nat)
    requires ZeroJob(math, layer, batches).Valid() && ZeroJob(math, layer, batches).Has(t) && k < 5 + layer.numClasses
    ensures ZeroJob(math, layer, batches).Raw(t)[k] == 0.0
  {
    hide InGrid, Job.Index;
    ZeroJob(math, layer, batches).IndexBound(t, k);
  }

  lemma ColumnsDiffer(v: real, alpha: real, x: nat, y: nat, net: nat, grid: nat)
    requires x < y && net > 0 && grid > 0
    ensures Centre(v, alpha, x, net, grid) != Centre(v, alpha, y, net, grid)
    ensures RegionCentre(v, x, net, grid) != RegionCentre(v, y, net, grid)
  {
    var at := v * alpha + -0.5 * (alpha - 1.0);
    Scaled(at + x as real, at + y as real, net as real, grid as real);
    Scaled(v + x as real, v + y as real, net as real, grid as real);
  }

  lemma Scaled(a: real, b: real, n: real, g: real)
    requires a < b && n > 0.0 && g > 0.0
    ensures a * n / g != b * n / g
  {
    assert (b - a) * n > 0.0;
    assert a * n / g * g == a * n && b * n / g * g == b * n;
  }

  // With equal fields, cells of different columns have different boxes.
  lemma BoxesDiffer(m: Math, l: Layer, i: nat, c: Cell, d: Cell, raw: seq<real>, raw': seq<real>)
    requires i < |l.tensors| && Readable(l.tensors[i]) && |raw| == |raw'| == 5 + l.numClasses && raw[0] == raw'[0]
    requires InGrid(c, l.tensors[i].numBBoxes, l.tensors[i].gridSizeX, l.tensors[i].gridSizeY)
    requires InGrid(d, l.tensors[i].numBBoxes, l.tensors[i].gridSizeX, l.tensors[i].gridSizeY)
    requires d.x < c.x && l.netWidth > 0
    ensures BoxField(m, l, i, c, raw, 0) != BoxField(m, l, i, d, raw', 0)
  {
    hide Sigmoid, Centre, RegionCentre;
    var t := l.tensors[i];
    var v := if KernelOf(l, i) == YoloNc then raw[0] else Sigmoid(m, raw[0]);
    ColumnsDiffer(v, t.scaleXY, d.x, c.x, l.netWidth, t.gridSizeX);
  }

  // The two cells of a wide grid that share a slot.
  function RowEnd(i: nat, gy: nat): Thread { Thread(0, i, Cell.Cell(0, 0, gy)) }

  function RowStart(i: nat): Thread { Thread(0, i, Cell.Cell(0, 1, 0)) }

  lemma WideShares(j: Job, i: nat)
    requires j.batches >= 1 && i < |j.layer.tensors| && j.layer.tensors[i].numBBoxes >= 1
    requires j.layer.tensors[i].gridSizeX > j.layer.tensors[i].gridSizeY >= 2
    ensures var (t, u) := (RowEnd(i, j.layer.tensors[i].gridSizeY), RowStart(i));
      j.Has(t) && j.Has(u) && j.SlotOf(t) == j.SlotOf(u)
  {
    hide Count;
    var tensor := j.layer.tensors[i];
    WideGridCollides(tensor.numBBoxes, tensor.gridSizeX, tensor.gridSizeY);
  }

  /** For every plugin with a grid that is wider than high, and not a single row, there are inputs for which two
      schedules of the same call end in different buffers. */
  lemma WideGridRaces(math: Math, layer: Layer, batches: nat, i: nat, out: Buffers, cells: Cells)
    returns (a: seq<State>, first: seq<Thread>, b: seq<State>, second: seq<Thread>)
    requires layer.outputSize == OutputSize(layer.tensors) && AllBounded(layer.tensors, batches) && batches >= 1
    requires layer.netWidth > 0 && forall k | 0 <= k < |layer.tensors| :: Readable(layer.tensors[k])
    requires i < |layer.tensors| && layer.tensors[i].numBBoxes >= 1
    requires layer.tensors[i].gridSizeX > layer.tensors[i].gridSizeY >= 2
    requires Fits(ZeroJob(math, layer, batches), out)
    requires |cells| == |layer.tensors|
    requires forall k | 0 <= k < |cells| :: |cells[k]| == batches * ZeroJob(math, layer, batches).TensorInput(k)
    ensures var (j, s) := (ZeroJob(math, layer, batches), State(out, cells, map[]));
      && j.Valid()
      && IsRun(j, a, first) && a[0] == s && Finished(j, a[|first|])
      && IsRun(j, b, second) && b[0] == s && Finished(j, b[|second|])
      && a[|first|].out != b[|second|].out
  {
    hide InGrid, IsRun, Finished, Slot, AllBounded, Readable, Job.Raw, BoxField, Job.TensorInput, Fits;
    var (j, s) := (ZeroJob(math, layer, batches), State(out, cells, map[]));
    var (t, u) := (RowEnd(i, layer.tensors[i].gridSizeY), RowStart(i));
    WideShares(j, i);
    ZeroFields(math, layer, batches, t, 0);
    ZeroFields(math, layer, batches, u, 0);
    BoxesDiffer(math, layer, i, t.cell, u.cell, j.Raw(t), j.Raw(u));
    RunHasLength(j);
    a, first, b, second := OrderMatters(j, s, t, u, 0);
  }
}
