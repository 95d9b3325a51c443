/** A whole load: the configuration text, the weight file and the build; and a file that loads with a reference that
    a route layer would read differently. */
module ModelLoader {
  import opened Options
  import opened CfgParser
  import opened CfgNumbers
  import opened CfgBlocks
  import opened LayerRefs
  import opened WeightCursor
  import opened WeightFile
  import opened NetworkBuilder
  import opened YoloTensor
  import opened YoloSlots
  import opened YoloLayout
  import opened YoloValues
  import opened YoloJob

  /** The files of a network, and how their strings and bytes are read as floats. */
  datatype Files = Files(cfg: string, path: string, modelName: string, weights: Bytes, stof: Stof, float: FloatOf,
                         notices: bool)
  {
    function Blocks(): seq<Block> { Parse(cfg) }

    function Weights(): Option<seq<real>> { WeightsOf(path, modelName, weights, float, notices) }
  }

  /** createEngine and parseModel for a Darknet network. */
  method LoadModel(f: Files, trt: TensorRT, sqrt: real -> real) returns (r: Option<Network>)
    requires |f.Blocks()| < INT_SPAN
    ensures r.Some? <==> f.Weights().Some? && Loads(f.Blocks(), trt, f.Weights().value, f.stof)
    ensures r.Some? ==>
      BuiltFrom(r.value, f.Blocks(), trt, f.Weights().value, sqrt, Configured(f.Blocks(), f.stof).value)
  {
    hide Parse, Configured, BuiltFrom, Builds;
    var blocks := ParseConfigFile(f.cfg);
    var c := ParseConfigBlocks(blocks, f.stof);
    if c.None? { return None; }
    var weights := LoadWeights(f.path, f.modelName, f.weights, f.float, f.notices);
    if weights.None? { return None; }
    RecordPerDetection(blocks, f.stof);
    r := BuildYoloNetwork(blocks, trt, weights.value, sqrt, c.value);
  }

  // ---------- Does the plugin of a loaded file stay within its anchors? ----------

  // The masks of a block, and the boxes of a cell without masks.
  function MasksOf(block: Block): Option<seq<int>> {
    if "mask" in block then ListAfter([], block["mask"], Mask) else Some([])
  }

  /** The lists of a detection block fit together: every mask names a pair of anchors or, without masks, there is a
      pair for each of the num boxes. */
  predicate AnchorsCover(block: Block, stof: Stof) {
    && "anchors" in block
    && var (anchors, masks) := (ListAfter([], block["anchors"], stof), MasksOf(block));
       && anchors.Some? && masks.Some?
       && if masks.value != [] then
            forall m | m in masks.value[..Uint(|masks.value|)] :: 0 <= m && 2 * m + 1 < |anchors.value|
          else Boxes(block, []).Some? && 2 * Boxes(block, []).value <= |anchors.value|
  }

  lemma UintAtMost(n: nat)
    ensures Uint(n) <= n
  {
  }

  // A record in terms of the lists of its block.
  lemma RecordLists(block: Block, stof: Stof)
    requires RecordOf(block, stof).Some?
    ensures var (t, masks) := (RecordOf(block, stof).value, MasksOf(block));
      && "anchors" in block && Some(t.anchors) == ListAfter([], block["anchors"], stof)
      && masks == Some(t.mask) && Some(t.numBBoxes) == Boxes(block, t.mask)
  {
    hide ListAfter, Boxes;
  }

  lemma RecordReadable(block: Block, stof: Stof)
    requires RecordOf(block, stof).Some?
    ensures Readable(RecordOf(block, stof).value) <==> AnchorsCover(block, stof)
  {
    hide ListAfter, Stoul, Trim, Uint, RecordOf, MasksOf;
    var t := RecordOf(block, stof).value;
    RecordLists(block, stof);
    UintAtMost(|t.mask|);
    if t.mask != [] {
      var used := t.mask[..t.numBBoxes];
      assert t.numBBoxes == Uint(|t.mask|);
      if Readable(t) {
        forall m | m in used ensures 0 <= m && 2 * m + 1 < |t.anchors| {
          var z :| 0 <= z < t.numBBoxes && t.mask[z] == m;
        }
      }
      if AnchorsCover(block, stof) {
        forall z | 0 <= z < t.numBBoxes ensures 0 <= t.mask[z] && t.mask[z] * 2 + 1 < |t.anchors| {
          assert used[z] in used;
        }
      }
    } else {
      assert Boxes(block, []) == Some(t.numBBoxes);
    }
  }

  lemma {:induction false} RecordsReadable(blocks: seq<Block>, stof: Stof)
    requires Configured(blocks, stof).Some?
    ensures (forall t | t in Configured(blocks, stof).value.tensors :: Readable(t))
       <==> forall b | b in blocks && IsDetection(b) :: AnchorsCover(b, stof)
  {
    hide RecordOf, Readable, Unsigned, AnchorsCover;
    if blocks != [] {
      var (init, last) := (blocks[..|blocks| - 1], blocks[|blocks| - 1]);
      RecordsReadable(init, stof);
      assert forall b :: b in blocks <==> b in init || b == last;
      var (before, after) := (Configured(init, stof).value.tensors, Configured(blocks, stof).value.tensors);
      if IsDetection(last) {
        RecordReadable(last, stof);
        assert after == before + [RecordOf(last, stof).value];
      } else {
        assert after == before;
      }
    }
  }

  /** The kernels stay within the anchors of a loaded plugin if and only if the lists of every detection block of the
      file fit together; the loader does not check it. */
  lemma ReadableExactly(r: Network, blocks: seq<Block>, trt: TensorRT, weights: seq<real>, sqrt: real -> real,
                        stof: Stof)
    requires |blocks| < INT_SPAN && Loads(blocks, trt, weights, stof)
    requires BuiltFrom(r, blocks, trt, weights, sqrt, Configured(blocks, stof).value)
    ensures (forall i | 0 <= i < |r.plugin.tensors| :: Readable(r.plugin.tensors[i]))
       <==> forall b | b in blocks && IsDetection(b) :: AnchorsCover(b, stof)
  {
    hide After, AllRead, AnchorsCover, Configured;
    var (c, p) := (Configured(blocks, stof).value, r.plugin);
    RecordsReadable(blocks, stof);
    forall i | 0 <= i < |p.tensors| ensures Readable(p.tensors[i]) <==> Readable(c.tensors[i]) {
      assert SizedBy(p.tensors[i], c.tensors[i], r.graph.detections[i], trt);
    }
    assert forall t :: t in c.tensors <==> exists i | 0 <= i < |c.tensors| :: c.tensors[i] == t;
  }

  /** A loaded plugin can be enqueued: with lists that fit together, grids that are square or one row high, and
      inputs of the size of its tensors, the call is one that the theorems about enqueue speak of. */
  lemma LoadedPluginRuns(r: Network, blocks: seq<Block>, trt: TensorRT, weights: seq<real>, sqrt: real -> real,
                         stof: Stof, j: Job)
    requires |blocks| < INT_SPAN && Loads(blocks, trt, weights, stof)
    requires BuiltFrom(r, blocks, trt, weights, sqrt, Configured(blocks, stof).value)
    requires forall b | b in blocks && IsDetection(b) :: AnchorsCover(b, stof)
    requires j.layer == r.plugin && ShapesOk(j.layer.tensors) && |j.inputs| == |j.layer.tensors|
    requires forall i | 0 <= i < |j.inputs| :: |j.inputs[i]| == j.batches * j.TensorInput(i)
    ensures j.Valid()
  {
    hide After, AllRead, AnchorsCover, Configured, Readable, ShapesOk, Slot, Launched;
    ReadableExactly(r, blocks, trt, weights, sqrt, stof);
    forall t: Thread | Launched(j.layer.tensors, j.batches, t)
      ensures t.tensor < |j.layer.tensors| && Slot(j.layer.tensors, t) < j.batches * OutputSize(j.layer.tensors)
    {
      Placed(j, t);
    }
  }

  lemma Placed(j: Job, t: Thread)
    requires ShapesOk(j.layer.tensors) && Launched(j.layer.tensors, j.batches, t)
    ensures t.tensor < |j.layer.tensors| && Slot(j.layer.tensors, t) < j.batches * OutputSize(j.layer.tensors)
  {
    SlotBound(j.layer.tensors, j.batches, t);
  }

  // ---------- A file that loads with an off-by-one reference ----------

  /** A batch normalisation, two upsamplings by one, a shortcut that counts back two, a detection layer for one box of
      one class, and the net block last. Every layer has the six channels that the detection layer reads. */
  function LateNet(): seq<Block> {
    [map["type" := "batchnorm", "filters" := Show(6), "activation" := "linear"],
     Upsample(), Upsample(),
     map["type" := "shortcut", "from" := Show(-2)],
     map["type" := "region", "num" := Show(1), "classes" := Show(1), "anchors" := CommaJoined([Show(1), Show(1)])],
     map["type" := "net", "height" := Show(32), "width" := Show(32), "channels" := Show(6)]]
  }

  function Upsample(): Block { map["type" := "upsample", "stride" := Show(1)] }

  // TensorRT for this network: all layers keep the shape, and the plugin needs an input.
  function LateTrt(): TensorRT {
    TensorRT((c, h, w) => c == 6 && h == 32 && w == 32, _ => [1, 6, 32, 32], (_, _) => true, ds => ds != [])
  }

  lemma ShowFacts(n: int)
    requires IsInt(n)
    ensures Trim(Show(n)) == Show(n) != [] && ',' !in Show(n) && '\n' !in Show(n) && Trimmed(Show(n))
    ensures Stoi(Show(n)) == Some(n) && (n >= 0 ==> Stoul(Show(n)) == Some(n))
  {
    hide Trim, Stoi, Stoul;
    ShownItem(Item("", n, ""));
    assert "" + Show(n) + "" == Show(n);
    if n >= 0 { StoulOfShow(n); }
  }

  lemma LateRegion(c: Config, stof: Stof)
    requires stof(Show(1)) == Some(1.0)
    ensures RecordOf(LateNet()[4], stof) == Some(TensorInfo("", 0, 0, 1, 1.0, [1.0, 1.0], []))
    ensures Configure(LateNet()[4], c, stof) == Some(c.(numClasses := 1,
      tensors := c.tensors + [TensorInfo("", 0, 0, 1, 1.0, [1.0, 1.0], [])]))
  {
    hide Show, Stoul, Trim, ListAfter, CommaJoined;
    ShowFacts(1);
    UintSmall(1);
    ListRoundTrip([], [Show(1), Show(1)], [1.0, 1.0], stof);
    assert [] + [1.0, 1.0] == [1.0, 1.0];
  }

  lemma LateOthers(n: nat, c: Config, stof: Stof)
    requires n < 4
    ensures Configure(LateNet()[n], c, stof) == Some(c)
  {
    hide Show, CommaJoined;
  }

  lemma LateSize(c: Config, stof: Stof)
    ensures Configure(LateNet()[5], c, stof) == Some(c.(inputH := 32, inputW := 32, inputC := 6))
  {
    hide Show, Stoul, CommaJoined;
    ShowFacts(32);
    ShowFacts(6);
    UintSmall(32);
    UintSmall(6);
  }

  lemma ConfiguredStep(blocks: seq<Block>, n: nat, stof: Stof)
    requires n < |blocks| && Configured(blocks[..n], stof).Some?
    ensures Configured(blocks[..n + 1], stof) == Configure(blocks[n], Configured(blocks[..n], stof).value, stof)
  {
    hide Configure;
    assert blocks[..n + 1][..n] == blocks[..n];
  }

  lemma {:induction false} LateStart(n: nat, stof: Stof)
    requires n <= 4
    ensures |LateNet()| == 6 && Configured(LateNet()[..n], stof) == Some(START_CONFIG)
  {
    hide Configure, LateNet;
    LateNetSize();
    if n == 0 {
      assert LateNet()[..0] == [];
    } else {
      LateStart(n - 1, stof);
      ConfiguredStep(LateNet(), n - 1, stof);
      LateOthers(n - 1, START_CONFIG, stof);
    }
  }

  lemma LateNetConfigured(stof: Stof)
    requires stof(Show(1)) == Some(1.0)
    ensures Configured(LateNet(), stof)
         == Some(Config(6, 32, 32, 0, 1, 0, [TensorInfo("", 0, 0, 1, 1.0, [1.0, 1.0], [])]))
  {
    hide Configured, Configure, LateNet, Show;
    var b := LateNet();
    LateStart(4, stof);
    LateRegion(START_CONFIG, stof);
    ConfiguredStep(b, 4, stof);
    var tensor := TensorInfo("", 0, 0, 1, 1.0, [1.0, 1.0], []);
    assert START_CONFIG.tensors + [tensor] == [tensor];
    var c := Config(0, 0, 0, 0, 1, 0, [tensor]);
    assert Configured(b[..5], stof) == Some(c);
    LateSize(c, stof);
    ConfiguredStep(b, 5, stof);
    assert b[..6] == b;
  }

  // The layers of the blocks.
  function LateOps(): seq<Op> {
    [Weighted([Input], Plan(true, false, 6, 0)), Apply(Output(0)), Apply(Output(1)), Join(Output(2), Output(0)),
     Detection(Output(3), "region" + "_" + Show(4)), Nothing]
  }

  function LateGraph(n: nat): Graph
    requires n <= 6
  {
    if n == 0 then START_GRAPH else Add(LateGraph(n - 1), LateOps()[n - 1])
  }

  lemma LateGraphs(n: nat)
    requires n <= 6
    ensures LateGraph(n).ops == LateOps()[..n]
    ensures n == 1 ==> LateGraph(n).previous == Output(0)
    ensures n == 2 ==> LateGraph(n).previous == Output(1)
    ensures n == 3 ==> LateGraph(n).previous == Output(2) && LateGraph(n).outputs == [Output(0), Output(1), Output(2)]
    ensures n == 4 ==> LateGraph(n).previous == Output(3)
    ensures n == 6 ==> LateGraph(n).weightPtr == 24 && LateGraph(n).detections == [LateOps()[4]]
  {
    hide Show;
    assert LateGraph(1) == Graph([LateOps()[0]], Output(0), [Output(0)], [], 24);
    assert LateGraph(2) == Graph(LateOps()[..2], Output(1), [Output(0), Output(1)], [], 24);
    assert LateGraph(3) == Graph(LateOps()[..3], Output(2), [Output(0), Output(1), Output(2)], [], 24);
    assert LateGraph(4) == Graph(LateOps()[..4], Output(3), [Output(0), Output(1), Output(2), Output(3)], [], 24);
    assert LateGraph(5).ops == LateOps()[..5] && LateGraph(5).weightPtr == 24;
    assert LateGraph(5).detections == [LateOps()[4]];
    assert LateGraph(6).ops == LateOps()[..6];
  }

  lemma LateNormCompiles(g: Graph)
    requires g.ops == [] && g.previous == Input
    ensures Compile(LateNet()[0], g, LateTrt()) == Some(Weighted([Input], Plan(true, false, 6, 0)))
  {
    hide Show, CommaJoined, Stoi;
    ShowFacts(6);
  }

  lemma LateUpsampleCompiles(n: nat, g: Graph)
    requires 1 <= n < 3 && |g.ops| == n
    ensures Compile(LateNet()[n], g, LateTrt()) == Some(Apply(g.previous))
  {
    hide Show, CommaJoined, Stoi;
    ShowFacts(1);
  }

  lemma LateShortcutCompiles(g: Graph)
    requires |g.ops| == |g.outputs| == 3
    ensures Compile(LateNet()[3], g, LateTrt()) == Some(Join(g.previous, g.outputs[0]))
  {
    hide Show, CommaJoined, Stoi, Resolve;
    ShowFacts(-2);
    ResolveExactly(3, 3, -2);
    assert Number(LateNet()[3], "from") == Some(-2);
  }

  lemma LateLastCompile(g: Graph)
    requires |g.ops| < INT_SPAN
    ensures Compile(LateNet()[4], g, LateTrt()) == Some(Detection(g.previous, "region" + "_" + Show(|g.ops|)))
    ensures Compile(LateNet()[5], g, LateTrt()) == Some(Nothing)
  {
    hide Show, CommaJoined, Stoi;
  }

  lemma LateCompiles(n: nat)
    requires n < 6
    ensures |LateGraph(n).ops| == n && |LateNet()| == |LateOps()| == 6
    ensures Compile(LateNet()[n], LateGraph(n), LateTrt()) == Some(LateOps()[n])
  {
    hide Show, LateNet, LateTrt, Compile, LateGraph;
    LateNetSize();
    LateGraphs(n);
    LateGraphStart();
    if n == 0 { LateNormCompiles(LateGraph(0)); }
    else if n < 3 { LateUpsampleCompiles(n, LateGraph(n)); }
    else if n == 3 { LateShortcutCompiles(LateGraph(3)); }
    else { LateLastCompile(LateGraph(n)); }
  }

  lemma LateGraphStart()
    ensures LateGraph(0) == START_GRAPH
  {
  }

  lemma {:induction false} LateBuilds(n: nat)
    requires n <= 6
    ensures After(LateNet(), LateTrt(), n) == Some(LateGraph(n))
  {
    hide Compile, LateNet, LateOps, Add;
    LateNetSize();
    if n > 0 {
      LateBuilds(n - 1);
      LateCompiles(n - 1);
    }
  }

  lemma LateNetSize()
    ensures |LateNet()| == |LateOps()| == 6
  {
  }

  lemma NormIsText()
    ensures BlockOk(LateNet()[0])
  {
    hide Show, CommaJoined, Trim, Stoi, Stoul;
    ShowFacts(6);
  }

  lemma UpsampleIsText()
    ensures BlockOk(Upsample())
  {
    hide Show, Trim, Stoi, Stoul;
    ShowFacts(1);
  }

  lemma ShortcutIsText()
    ensures BlockOk(LateNet()[3])
  {
    hide Show, CommaJoined, Trim, Stoi, Stoul;
    ShowFacts(-2);
  }

  lemma NetIsText()
    ensures BlockOk(LateNet()[5])
  {
    hide Show, CommaJoined, Trim, Stoi, Stoul;
    ShowFacts(32);
    ShowFacts(6);
  }

  lemma RegionIsText()
    ensures BlockOk(LateNet()[4])
  {
    hide Show, CommaJoined, Trim, Stoi, Stoul;
    ShowFacts(1);
    AnchorsText();
    var (one, two) := (Show(1), Show(1) + "," + Show(1));
    assert two[0] == one[0] && two[|two| - 1] == one[|one| - 1];
  }

  lemma LateNetIsText()
    ensures forall b | b in LateNet() :: BlockOk(b)
  {
    hide BlockOk, Show, CommaJoined;
    NormIsText();
    UpsampleIsText();
    ShortcutIsText();
    RegionIsText();
    NetIsText();
    assert LateNet()[1] == LateNet()[2] == Upsample();
  }

  lemma AnchorsText()
    ensures CommaJoined([Show(1), Show(1)]) == Show(1) + "," + Show(1)
  {
    hide Show;
    assert [Show(1), Show(1)][1..] == [Show(1)];
  }

  /** There are files that load in which a `from` of -2 picks output 0, where a route layer's -2 is output 1. The
      weight file has any 24 floats after its header. */
  lemma LateNetIsOffByOne(bytes: Bytes, stof: Stof, float: FloatOf, notices: bool) returns (f: Files)
    requires |bytes| == 20 + 4 * 24 && stof(Show(1)) == Some(1.0)
    ensures f.Blocks() == LateNet() && f.stof == stof
    ensures f.Weights().Some? && Loads(f.Blocks(), LateTrt(), f.Weights().value, f.stof)
    ensures After(f.Blocks(), LateTrt(), 4).Some? && |After(f.Blocks(), LateTrt(), 4).value.ops| == 4
    ensures After(f.Blocks(), LateTrt(), 4).value.ops[3] == Join(Output(2), Output(0))
    ensures After(f.Blocks(), LateTrt(), 3).Some?
    ensures After(f.Blocks(), LateTrt(), 3).value.outputs == [Output(0), Output(1), Output(2)]
    ensures RouteIndex(3, -2) == Some(1)
  {
    hide Parse, Configured, After, LateNet, Contains, WeightsOf, LateGraph, Show;
    LateNetIsText();
    LateNetSize();
    var cfg := EveryListIsRead(LateNet());
    f := Files(cfg, ".weights", "", bytes, stof, float, notices);
    LateWeights(bytes, float, notices);
    LateNetConfigured(stof);
    LateBuilds(3);
    LateBuilds(4);
    LateBuilds(6);
    LateGraphs(3);
    LateGraphs(4);
    LateGraphs(6);
  }

  lemma LateWeights(bytes: Bytes, float: FloatOf, notices: bool)
    requires |bytes| == 20 + 4 * 24
    ensures WeightsOf(".weights", "", bytes, float, notices).Some?
    ensures |WeightsOf(".weights", "", bytes, float, notices).value| == 24
  {
    hide WeightsOf;
    assert HeaderSize("") == 20;
    WeightsExactly(".weights", "", bytes, float, notices);
  }
}
