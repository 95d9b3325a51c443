/** The two decoders of the network output: the list of nvdsparsebbox_Yolo.cpp, on the CPU, and the array of
    nvdsparsebbox_Yolo_cuda.cu, one GPU thread for each element. Floats are reals. */
module BBoxDecode {

  datatype Object = Object(left: real, top: real, width: real, height: real, confidence: real, classId: int)

  // decodeTensorYolo reads a centre and a size, decodeTensorYoloE two corners.
  datatype Form = Centre | Corners

  datatype Output = Output(
    form: Form,
    boxes: seq<real>,
    scores: seq<real>,
    classes: seq<real>,
    netW: nat,
    netH: nat,
    thresholds: seq<real>)
  {
    function Size(): nat { |scores| }

    // The buffers agree in size, and there is a smallest threshold.
    predicate Valid() { |boxes| == 4 * |scores| && |classes| == |scores| && thresholds != [] }

    // Every class has a threshold, which the CPU looks up.
    predicate Indexed()
      requires Valid()
    {
      forall b | 0 <= b < |scores| :: 0 <= ClassAt(b) < |thresholds|
    }

    // The cast of a float to int.
    function ClassAt(b: nat): int
      requires b < |classes|
    {
      if classes[b] >= 0.0 then classes[b].Floor else -(-classes[b]).Floor
    }
  }

  // std::min and std::max, fminf and fmaxf.
  function Min(x: real, y: real): real { if x < y then x else y }

  function Max(x: real, y: real): real { if x < y then y else x }

  // clamp of utils.cpp between 0 and the side of the network input.
  function Clamp(x: real, side: nat): (r: real)
    ensures 0.0 <= r <= side as real
    ensures x <= 0.0 ==> r == 0.0
    ensures 0.0 <= x <= side as real ==> r == x
    ensures x >= side as real ==> r == side as real
  {
    Min(side as real, Max(0.0, x))
  }

  // The corners before clamping.
  function Box(o: Output, b: nat): (real, real, real, real)
    requires o.Valid() && b < o.Size()
  {
    var (x, y, z, t) := (o.boxes[b * 4], o.boxes[b * 4 + 1], o.boxes[b * 4 + 2], o.boxes[b * 4 + 3]);
    match o.form
    case Centre => (x - z / 2.0, y - t / 2.0, x - z / 2.0 + z, y - t / 2.0 + t)
    case Corners => (x, y, z, t)
  }

  /** The object of element b. */
  function Decoded(o: Output, b: nat): Object
    requires o.Valid() && b < o.Size()
  {
    var (x1, y1, x2, y2) := Box(o, b);
    Object(Clamp(x1, o.netW), Clamp(y1, o.netH),
           Clamp(Clamp(x2, o.netW) - Clamp(x1, o.netW), o.netW),
           Clamp(Clamp(y2, o.netH) - Clamp(y1, o.netH), o.netH),
           o.scores[b], o.ClassAt(b))
  }

  /** What the caller keeps of either: confident enough for its class, and not degenerate. */
  predicate Kept(x: Object, thresholds: seq<real>) {
    && 0 <= x.classId < |thresholds| && x.confidence >= thresholds[x.classId]
    && x.width >= 1.0 && x.height >= 1.0
  }

  function Filtered(xs: seq<Object>, thresholds: seq<real>): seq<Object> {
    if xs == [] then []
    else Filtered(xs[..|xs| - 1], thresholds) + if Kept(xs[|xs| - 1], thresholds) then [xs[|xs| - 1]] else []
  }

  function AllDecoded(o: Output): (r: seq<Object>)
    requires o.Valid()
    ensures |r| == o.Size()
  {
    seq(o.Size(), b requires 0 <= b < o.Size() => Decoded(o, b))
  }

  // ---------- The list ----------

  method ConvertBBox(bx1: real, by1: real, bx2: real, by2: real, netW: nat, netH: nat)
    returns (left: real, top: real, width: real, height: real)
    ensures left == Clamp(bx1, netW) && top == Clamp(by1, netH)
    ensures width == Clamp(Clamp(bx2, netW) - Clamp(bx1, netW), netW)
    ensures height == Clamp(Clamp(by2, netH) - Clamp(by1, netH), netH)
  {
    var x1, y1, x2, y2 := bx1, by1, bx2, by2;
    x1 := Clamp(x1, netW);
    y1 := Clamp(y1, netH);
    x2 := Clamp(x2, netW);
    y2 := Clamp(y2, netH);
    left, width, top, height := x1, Clamp(x2 - x1, netW), y1, Clamp(y2 - y1, netH);
  }

  /** The list is what is kept of all the objects, in order. */
  method DecodeTensorYolo(o: Output) returns (binfo: seq<Object>)
    requires o.Valid() && o.Indexed()
    ensures binfo == Filtered(AllDecoded(o), o.thresholds)
  {
    binfo := [];
    for b := 0 to o.Size()
      invariant binfo == Filtered(AllDecoded(o)[..b], o.thresholds)
    {
      assert AllDecoded(o)[..b + 1][..b] == AllDecoded(o)[..b];
      var maxProb := o.scores[b];
      var maxIndex := o.ClassAt(b);
      if maxProb < o.thresholds[maxIndex] { continue; }
      var (bx1, by1, bx2, by2) := Box(o, b);
      var left, top, width, height := ConvertBBox(bx1, by1, bx2, by2, o.netW, o.netH);
      if width < 1.0 || height < 1.0 { continue; }
      binfo := binfo + [Object(left, top, width, height, maxProb, maxIndex)];
    }
    assert AllDecoded(o)[..o.Size()] == AllDecoded(o);
  }

  lemma {:induction false} FilteredAreKept(xs: seq<Object>, thresholds: seq<real>, x: Object)
    ensures x in Filtered(xs, thresholds) <==> x in xs && Kept(x, thresholds)
  {
    if xs != [] {
      FilteredAreKept(xs[..|xs| - 1], thresholds, x);
      assert xs == xs[..|xs| - 1] + [xs[|xs| - 1]];
    }
  }

  /** Every box of the list is at least one by one and inside the network input. */
  lemma BoxesInside(o: Output, x: Object)
    requires o.Valid() && x in Filtered(AllDecoded(o), o.thresholds)
    ensures 0.0 <= x.left && x.left + x.width <= o.netW as real && 1.0 <= x.width
    ensures 0.0 <= x.top && x.top + x.height <= o.netH as real && 1.0 <= x.height
    ensures 0 <= x.classId < |o.thresholds| && x.confidence >= o.thresholds[x.classId]
  {
    FilteredAreKept(AllDecoded(o), o.thresholds, x);
    var b :| 0 <= b < o.Size() && AllDecoded(o)[b] == x;
  }

  /** A box that lies inside the network input keeps its corners, and in the centre form its centre and size. */
  lemma InsideIsExact(o: Output, b: nat)
    requires o.Valid() && b < o.Size()
    requires var (x1, y1, x2, y2) := Box(o, b);
      0.0 <= x1 <= x2 <= o.netW as real && 0.0 <= y1 <= y2 <= o.netH as real
    ensures var (d, p, q, r, s) :=
        (Decoded(o, b), o.boxes[b * 4], o.boxes[b * 4 + 1], o.boxes[b * 4 + 2], o.boxes[b * 4 + 3]);
      match o.form
      case Centre => d.left + d.width / 2.0 == p && d.top + d.height / 2.0 == q && d.width == r && d.height == s
      case Corners => d.left == p && d.top == q && d.left + d.width == r && d.top + d.height == s
  {
  }

  // ---------- What an object is, without the arithmetic ----------

  // The box of element b, before it is cut, reaches point (p, q).
  ghost predicate Reaches(o: Output, b: nat, p: real, q: real)
    requires o.Valid() && b < o.Size()
  {
    var (x, y, z, t) := (o.boxes[b * 4], o.boxes[b * 4 + 1], o.boxes[b * 4 + 2], o.boxes[b * 4 + 3]);
    match o.form
    case Centre => -z <= 2.0 * (p - x) <= z && -t <= 2.0 * (q - y) <= t
    case Corners => x <= p <= z && y <= q <= t
  }

  ghost predicate InFrame(o: Output, p: real, q: real) { 0.0 <= p <= o.netW as real && 0.0 <= q <= o.netH as real }

  ghost predicate InObject(x: Object, p: real, q: real) {
    x.left <= p <= x.left + x.width && x.top <= q <= x.top + x.height
  }

  // n is x without its fraction.
  ghost predicate WithoutFraction(x: real, n: int) {
    if x >= 0.0 then n as real <= x < n as real + 1.0 else n as real - 1.0 < x <= n as real
  }

  /** x is the part of box b inside the network input, with the score and the class of b. */
  ghost predicate IsPartOf(o: Output, b: nat, x: Object)
    requires o.Valid() && b < o.Size()
  {
    && (forall p: real, q: real :: InObject(x, p, q) <==> Reaches(o, b, p, q) && InFrame(o, p, q))
    && x.confidence == o.scores[b] && WithoutFraction(o.classes[b], x.classId)
  }

  // The part of box b inside the network input is at least one pixel wide and high.
  ghost predicate OnePixel(o: Output, b: nat)
    requires o.Valid() && b < o.Size()
  {
    exists p: real, q: real :: BothIn(o, b, p, q)
  }

  ghost predicate BothIn(o: Output, b: nat, p: real, q: real)
    requires o.Valid() && b < o.Size()
  {
    Reaches(o, b, p, q) && InFrame(o, p, q) && Reaches(o, b, p + 1.0, q + 1.0) && InFrame(o, p + 1.0, q + 1.0)
  }

  // The points of a cut interval that is not empty.
  lemma CutInterval(lo: real, hi: real, side: nat, p: real)
    requires Clamp(Clamp(hi, side) - Clamp(lo, side), side) > 0.0
    ensures var left := Clamp(lo, side);
      left <= p <= left + Clamp(Clamp(hi, side) - left, side) <==> lo <= p <= hi && 0.0 <= p <= side as real
  {
  }

  lemma CutOnePixel(lo: real, hi: real, side: nat, p: real)
    requires lo <= p && p + 1.0 <= hi && 0.0 <= p && p + 1.0 <= side as real
    ensures Clamp(Clamp(hi, side) - Clamp(lo, side), side) >= 1.0
  {
  }

  lemma ReachesIs(o: Output, b: nat, p: real, q: real)
    requires o.Valid() && b < o.Size()
    ensures var (x1, y1, x2, y2) := Box(o, b); Reaches(o, b, p, q) <==> x1 <= p <= x2 && y1 <= q <= y2
  {
  }

  /** An object of positive size is its element's box cut with the network input. */
  lemma DecodedIsPart(o: Output, b: nat)
    requires o.Valid() && b < o.Size() && Decoded(o, b).width > 0.0 && Decoded(o, b).height > 0.0
    ensures IsPartOf(o, b, Decoded(o, b))
  {
    hide Clamp, Reaches, Box;
    var (d, (x1, y1, x2, y2)) := (Decoded(o, b), Box(o, b));
    forall p: real, q: real ensures InObject(d, p, q) <==> Reaches(o, b, p, q) && InFrame(o, p, q) {
      ReachesIs(o, b, p, q);
      CutInterval(x1, x2, o.netW, p);
      CutInterval(y1, y2, o.netH, q);
    }
  }

  lemma OnePixelExactly(o: Output, b: nat)
    requires o.Valid() && b < o.Size()
    ensures OnePixel(o, b) <==> Decoded(o, b).width >= 1.0 && Decoded(o, b).height >= 1.0
  {
    hide Clamp, Reaches, Box, WithoutFraction;
    var (d, (x1, y1, x2, y2)) := (Decoded(o, b), Box(o, b));
    if p: real, q: real :| BothIn(o, b, p, q) {
      ReachesIs(o, b, p, q);
      ReachesIs(o, b, p + 1.0, q + 1.0);
      CutOnePixel(x1, x2, o.netW, p);
      CutOnePixel(y1, y2, o.netH, q);
    }
    if d.width >= 1.0 && d.height >= 1.0 {
      DecodedIsPart(o, b);
      assert InObject(d, d.left, d.top) && InObject(d, d.left + 1.0, d.top + 1.0);
      assert BothIn(o, b, d.left, d.top);
    }
  }

  // The elements that are kept, from the first n.
  ghost function KeptElements(o: Output, n: nat): (at: seq<nat>)
    requires o.Valid() && n <= o.Size()
    ensures forall k | 0 <= k < |at| :: at[k] < n
    ensures forall k, l | 0 <= k < l < |at| :: at[k] < at[l]
    ensures forall b | 0 <= b < n :: b in at <==> Kept(Decoded(o, b), o.thresholds)
  {
    if n == 0 then []
    else KeptElements(o, n - 1) + if Kept(Decoded(o, n - 1), o.thresholds) then [n - 1] else []
  }

  lemma {:induction false} FilteredElements(o: Output, n: nat)
    requires o.Valid() && n <= o.Size()
    ensures var (list, at) := (Filtered(AllDecoded(o)[..n], o.thresholds), KeptElements(o, n));
      |list| == |at| && forall k | 0 <= k < |at| :: list[k] == Decoded(o, at[k])
  {
    hide Decoded, Kept;
    if n > 0 {
      FilteredElements(o, n - 1);
      assert AllDecoded(o)[..n][..n - 1] == AllDecoded(o)[..n - 1];
    }
  }

  /** The list in terms of the buffers: at names its elements in the order of the buffers, which are all those
      confident enough for their class whose box has a pixel inside the network input, and each object is the part of
      its element's box inside the network input. */
  lemma ListExactly(o: Output) returns (at: seq<nat>)
    requires o.Valid() && o.Indexed()
    ensures var list := Filtered(AllDecoded(o), o.thresholds);
      && |list| == |at| && (forall k, l | 0 <= k < l < |at| :: at[k] < at[l])
      && (forall b | 0 <= b < o.Size() :: b in at <==> ElementKept(o, b))
      && forall k | 0 <= k < |at| :: at[k] < o.Size() && IsPartOf(o, at[k], list[k])
  {
    hide Decoded, IsPartOf, OnePixel, Output.ClassAt, AllDecoded;
    at := KeptElements(o, o.Size());
    FilteredElements(o, o.Size());
    assert AllDecoded(o)[..o.Size()] == AllDecoded(o);
    forall b | 0 <= b < o.Size() ensures b in at <==> ElementKept(o, b) { ElementKeptExactly(o, b); }
    forall k | 0 <= k < |at| ensures at[k] < o.Size() && IsPartOf(o, at[k], Filtered(AllDecoded(o), o.thresholds)[k]) {
      assert at[k] in at;
      DecodedIsPart(o, at[k]);
    }
  }

  ghost predicate ElementKept(o: Output, b: nat)
    requires o.Valid() && b < o.Size()
  {
    && OnePixel(o, b)
    && exists c: int :: Threshold(o, b, c)
  }

  // The class of b is c, and its score reaches the threshold of c.
  ghost predicate Threshold(o: Output, b: nat, c: int)
    requires o.Valid() && b < o.Size()
  {
    WithoutFraction(o.classes[b], c) && 0 <= c < |o.thresholds| && o.scores[b] >= o.thresholds[c]
  }

  lemma ElementKeptExactly(o: Output, b: nat)
    requires o.Valid() && o.Indexed() && b < o.Size()
    ensures ElementKept(o, b) <==> Kept(Decoded(o, b), o.thresholds)
  {
    hide OnePixel, Clamp, Box;
    OnePixelExactly(o, b);
    var c := o.ClassAt(b);
    assert WithoutFraction(o.classes[b], c);
    if Kept(Decoded(o, b), o.thresholds) { assert Threshold(o, b, c); }
    if e: int :| Threshold(o, b, e) { assert e == c; }
  }

  // ---------- The array ----------

  const ZERO := Object(0.0, 0.0, 0.0, 0.0, 0.0, 0)

  predicate IsMinimum(m: real, s: seq<real>) { m in s && forall k | 0 <= k < |s| :: m <= s[k] }

  // std::min_element.
  method MinElement(s: seq<real>) returns (m: real)
    requires s != []
    ensures IsMinimum(m, s)
  {
    m := s[0];
    for k := 1 to |s|
      invariant m in s && forall i | 0 <= i < k :: m <= s[i]
    {
      if s[k] < m { m := s[k]; }
    }
  }

  // The element of a thread when all its stores are done.
  function ThreadObject(o: Output, min: real, x: nat): Object
    requires o.Valid() && x < o.Size()
  {
    if o.scores[x] < min then ZERO else Decoded(o, x)
  }

  const STORES := 6

  // The element after k stores of its thread.
  function AfterStores(o: Output, min: real, x: nat, k: nat): Object
    requires o.Valid() && x < o.Size()
  {
    var d := Decoded(o, x);
    if o.scores[x] < min then ZERO
    else Object(if k > 0 then d.left else 0.0, if k > 1 then d.top else 0.0, if k > 2 then d.width else 0.0,
                if k > 3 then d.height else 0.0, if k > 4 then d.confidence else 0.0, if k > 5 then d.classId else 0)
  }

  function Turns(schedule: seq<nat>, x: nat): nat {
    if schedule == [] then 0
    else Turns(schedule[..|schedule| - 1], x) + if schedule[|schedule| - 1] == x then 1 else 0
  }

  // Thread x does its store number k; a thread past the end of the output does nothing.
  method Store(o: Output, binfo: array<Object>, min: real, x: nat, k: nat)
    requires o.Valid() && binfo.Length == o.Size()
    requires x < o.Size() ==> binfo[x] == AfterStores(o, min, x, k)
    modifies binfo
    ensures forall y | 0 <= y < binfo.Length && y != x :: binfo[y] == old(binfo[y])
    ensures x < o.Size() ==> binfo[x] == AfterStores(o, min, x, k + 1)
  {
    if x >= o.Size() { return; }
    var maxProb, maxIndex := o.scores[x], o.ClassAt(x);
    if maxProb < min {
      binfo[x] := binfo[x].(confidence := 0.0);
      return;
    }
    var (x0, y0, x1, y1) := Box(o, x);
    x0, y0, x1, y1 := Clamp(x0, o.netW), Clamp(y0, o.netH), Clamp(x1, o.netW), Clamp(y1, o.netH);
    match k {
      case 0 => binfo[x] := binfo[x].(left := x0);
      case 1 => binfo[x] := binfo[x].(top := y0);
      case 2 => binfo[x] := binfo[x].(width := Clamp(x1 - x0, o.netW));
      case 3 => binfo[x] := binfo[x].(height := Clamp(y1 - y0, o.netH));
      case 4 => binfo[x] := binfo[x].(confidence := maxProb);
      case 5 => binfo[x] := binfo[x].(classId := maxIndex);
      case _ =>
    }
  }

  /** The launch, for any interleaving of the stores of all threads in which every thread finishes: the turns of
      a schedule name the thread whose next store is done. */
  method Launch(o: Output, binfo: array<Object>, min: real, schedule: seq<nat>)
    requires o.Valid() && binfo.Length == o.Size() && forall x | 0 <= x < o.Size() :: binfo[x] == ZERO
    requires forall x | 0 <= x < o.Size() :: Turns(schedule, x) >= STORES
    modifies binfo
    ensures forall x | 0 <= x < o.Size() :: binfo[x] == ThreadObject(o, min, x)
  {
    hide Box, Decoded, Output.Valid;
    for t := 0 to |schedule|
      invariant forall x | 0 <= x < o.Size() :: binfo[x] == AfterStores(o, min, x, Turns(schedule[..t], x))
    {
      assert schedule[..t + 1][..t] == schedule[..t];
      Store(o, binfo, min, schedule[t], Turns(schedule[..t], schedule[t]));
    }
    assert schedule[..|schedule|] == schedule;
  }

  method ParseCustomYoloCuda(o: Output, schedule: seq<nat>) returns (objects: seq<Object>)
    requires o.Valid() && forall x | 0 <= x < o.Size() :: Turns(schedule, x) >= STORES
    ensures |objects| == o.Size()
    ensures exists min :: IsMinimum(min, o.thresholds) && IsArrayOf(objects, o, min)
  {
    var binfo := new Object[o.Size()](i => ZERO);
    var min := MinElement(o.thresholds);
    Launch(o, binfo, min, schedule);
    objects := binfo[..];
    assert IsArrayOf(objects, o, min);
  }

  predicate IsArrayOf(objects: seq<Object>, o: Output, min: real)
    requires o.Valid()
  {
    |objects| == o.Size() && forall x | 0 <= x < |objects| :: objects[x] == ThreadObject(o, min, x)
  }

  // The grid of the launch covers the output.
  const THREADS_PER_BLOCK := 1024

  // The int division (0 - 1) / 1024 is 0.
  function NumberOfBlocks(outputSize: nat): nat {
    if outputSize == 0 then 1 else (outputSize - 1) / THREADS_PER_BLOCK + 1
  }

  function ThreadId(block: nat, thread: nat): nat { block * THREADS_PER_BLOCK + thread }

  /** Every element has exactly one of the launched threads. */
  lemma LaunchCovers(outputSize: nat, x: nat, block: nat, thread: nat)
    requires x < outputSize && thread < THREADS_PER_BLOCK
    ensures x / THREADS_PER_BLOCK < NumberOfBlocks(outputSize)
    ensures ThreadId(block, thread) == x <==> block == x / THREADS_PER_BLOCK && thread == x % THREADS_PER_BLOCK
  {
  }

  // ---------- The two agree ----------

  lemma {:induction false} SameFiltered(xs: seq<Object>, ys: seq<Object>, thresholds: seq<real>)
    requires |xs| == |ys|
    requires forall b | 0 <= b < |xs| ::
      xs[b] == ys[b] || (!Kept(xs[b], thresholds) && !Kept(ys[b], thresholds))
    ensures Filtered(xs, thresholds) == Filtered(ys, thresholds)
  {
    if xs != [] { SameFiltered(xs[..|xs| - 1], ys[..|ys| - 1], thresholds); }
  }

  /** Filtering the array gives the list. */
  lemma ArrayRefinesList(objects: seq<Object>, o: Output, min: real)
    requires o.Valid() && o.Indexed() && IsMinimum(min, o.thresholds) && IsArrayOf(objects, o, min)
    ensures Filtered(objects, o.thresholds) == Filtered(AllDecoded(o), o.thresholds)
  {
    forall b | 0 <= b < |objects|
      ensures objects[b] == AllDecoded(o)[b]
           || (!Kept(objects[b], o.thresholds) && !Kept(AllDecoded(o)[b], o.thresholds))
    {
      assert min <= o.thresholds[o.ClassAt(b)];
    }
    SameFiltered(objects, AllDecoded(o), o.thresholds);
  }
}
