/** The graph that buildYoloNetwork makes, by positions and types of blocks: which tensors each layer reads, what a
    layer with weights takes, and which blocks compile. The two lists of tensors that the build keeps up to date are
    read off the finished graph here. */
module NetworkGraph {
  import opened Options
  import opened CfgParser
  import opened CfgNumbers
  import opened CfgBlocks
  import opened LayerRefs
  import opened WeightCursor
  import opened YoloTensor
  import opened NetworkBuilder
  import CfgMeaning

  predicate KindIn(block: Block, kinds: set<string>) { "type" in block && block["type"] in kinds }

  // ---------- The tensors between the blocks ----------

  /** The tensor that the first i blocks hand on: the result of the last of them, but net, dropout and detection blocks
      pass on what they get, and a route to one tensor without groups is that tensor. */
  function Handed(blocks: seq<Block>, ops: seq<Op>, i: nat): Wire
    requires i <= |blocks| && i <= |ops|
  {
    if i == 0 then Input
    else if KindIn(blocks[i - 1], {"net", "dropout", "yolo", "region"}) then Handed(blocks, ops, i - 1)
    else if KindIn(blocks[i - 1], {"route"}) && "groups" !in blocks[i - 1] && |ops[i - 1].Reads()| == 1 then
      ops[i - 1].Reads()[0]
    else Output(i - 1)
  }

  /** The tensors that routes and references count: what each block hands on, net and dropout blocks left out. */
  function Listed(blocks: seq<Block>, ops: seq<Op>, i: nat): seq<Wire>
    requires i <= |blocks| && i <= |ops|
  {
    if i == 0 then []
    else
      Listed(blocks, ops, i - 1)
      + if KindIn(blocks[i - 1], {"net", "dropout"}) then [] else [Handed(blocks, ops, i)]
  }

  // Block i is a layer of this graph.
  lemma OpAt(blocks: seq<Block>, trt: TensorRT, n: nat, i: nat)
    requires i < n <= |blocks| < INT_SPAN && After(blocks, trt, n).Some?
    ensures After(blocks, trt, i).Some? && Compile(blocks[i], After(blocks, trt, i).value, trt).Some?
    ensures After(blocks, trt, n).value.ops[i] == Compile(blocks[i], After(blocks, trt, i).value, trt).value
    ensures After(blocks, trt, i + 1) == Some(Add(After(blocks, trt, i).value, After(blocks, trt, n).value.ops[i]))
  {
    hide Compile, Add;
    Prefix(blocks, trt, i, n);
    Prefix(blocks, trt, i + 1, n);
    AddFacts(After(blocks, trt, i).value, Compile(blocks[i], After(blocks, trt, i).value, trt).value);
  }

  lemma TranslatesRoute(block: Block, g: Graph, op: Op, trt: TensorRT)
    requires |g.ops| < INT_SPAN && Compile(block, g, trt) == Some(op)
    ensures op.Route? <==> KindIn(block, {"route"})
    ensures op.Route? ==> (op.sliced <==> "groups" in block) && op.inputs != []
    ensures op.Nothing? <==> KindIn(block, {"net", "dropout"})
    ensures op.Detection? <==> KindIn(block, {"yolo", "region"})
    ensures op.Detection? ==> op.input == g.previous
  {
    hide Stoi, LayerList, Resolve, Resolved, Convolution, Deconvolution, BatchNorm, Implicit;
  }

  /** The variables of the loop are these tensors. */
  lemma {:induction false} VariablesAre(blocks: seq<Block>, trt: TensorRT, n: nat, i: nat)
    requires i <= n <= |blocks| < INT_SPAN && After(blocks, trt, n).Some?
    ensures var ops := After(blocks, trt, n).value.ops;
      && After(blocks, trt, i).Some?
      && After(blocks, trt, i).value.previous == Handed(blocks, ops, i)
      && After(blocks, trt, i).value.outputs == Listed(blocks, ops, i)
  {
    hide Compile, KindIn;
    if i > 0 {
      VariablesAre(blocks, trt, n, i - 1);
      OpAt(blocks, trt, n, i - 1);
      var g := After(blocks, trt, i - 1).value;
      TranslatesRoute(blocks[i - 1], g, After(blocks, trt, n).value.ops[i - 1], trt);
      KindsApart(blocks[i - 1]);
    }
  }

  lemma KindsApart(block: Block)
    ensures KindIn(block, {"net", "dropout", "yolo", "region"})
       <==> KindIn(block, {"net", "dropout"}) || KindIn(block, {"yolo", "region"})
    ensures KindIn(block, {"route"}) ==> !KindIn(block, {"net", "dropout"}) && !KindIn(block, {"yolo", "region"})
  {
  }

  // ---------- What each block reads ----------

  // The blocks that read what they are handed, and nothing else.
  predicate ReadsHanded(block: Block) {
    KindIn(block, {"convolutional", "deconvolutional", "batchnorm", "upsample", "max", "maxpool", "avg", "avgpool",
                   "reorg", "reorg3d", "yolo", "region"})
  }

  predicate ReadsNothing(block: Block) { KindIn(block, {"implicit", "implicit_add", "implicit_mul", "net", "dropout"}) }

  predicate Refers(block: Block) { KindIn(block, {"shortcut", "sam", "shift_channels", "control_channels"}) }

  // Entry n of the list, or from its end if n is negative.
  predicate IsEntry(list: seq<Wire>, n: int, w: Wire) {
    if n < 0 then |list| + n >= 0 && w == list[|list| + n] else n < |list| && w == list[n]
  }

  // The reads of a route: the entries its numbers name, in order.
  predicate ReadsEntries(block: Block, list: seq<Wire>, inputs: seq<Wire>) {
    && "layers" in block && LayerList(block["layers"]).Some?
    && var numbers := LayerList(block["layers"]).value;
       |inputs| == |numbers| > 0 && forall k | 0 <= k < |inputs| :: IsEntry(list, numbers[k], inputs[k])
  }

  // The reads of a reference in block i: what it is handed, and the entry at `from`, or i - 1 + from if negative.
  predicate ReadsEntry(block: Block, i: nat, handed: Wire, list: seq<Wire>, inputs: seq<Wire>) {
    && Number(block, "from").Some?
    && var from := Number(block, "from").value;
       var k := if from < 0 then i - 1 + from else from;
       0 < |list| && 0 <= k < |list| && k < i - 2 && inputs == [handed, list[k]]
  }

  lemma CompilesHanded(block: Block, g: Graph, trt: TensorRT)
    requires |g.ops| < INT_SPAN && Compile(block, g, trt).Some? && ReadsHanded(block)
    ensures Compile(block, g, trt).value.Reads() == [g.previous]
  {
    hide Stoi, Convolution, Deconvolution, BatchNorm, Implicit;
  }

  lemma CompilesRoute(block: Block, g: Graph, trt: TensorRT)
    requires |g.ops| < INT_SPAN && Compile(block, g, trt).Some? && KindIn(block, {"route"})
    ensures ReadsEntries(block, g.outputs, Compile(block, g, trt).value.Reads())
  {
    hide Stoi, LayerList, Resolved;
    var list := LayerList(block["layers"]).value;
    ResolvedEntries(list, g.outputs);
  }

  lemma {:induction false} ResolvedEntries(numbers: seq<int>, list: seq<Wire>)
    requires Resolved(numbers, list).Some?
    ensures forall k | 0 <= k < |numbers| :: IsEntry(list, numbers[k], Resolved(numbers, list).value[k])
  {
    if numbers != [] { ResolvedEntries(numbers[..|numbers| - 1], list); }
  }

  lemma CompilesReference(block: Block, g: Graph, trt: TensorRT)
    requires |g.outputs| <= |g.ops| < INT_SPAN && Compile(block, g, trt).Some? && Refers(block)
    ensures ReadsEntry(block, |g.ops|, g.previous, g.outputs, Compile(block, g, trt).value.Reads())
  {
    hide Stoi, Resolve;
    var from := Number(block, "from").value;
    ResolveExactly(|g.ops|, |g.outputs|, from);
  }

  /** Every block of a built graph reads the tensors that its type says: most what they are handed; constants nothing;
      a reference what it is handed and the entry it names; a route the entries it names, in order. */
  lemma ReadsExactly(blocks: seq<Block>, trt: TensorRT, n: nat, i: nat)
    requires i < n <= |blocks| < INT_SPAN && After(blocks, trt, n).Some?
    ensures var ops := After(blocks, trt, n).value.ops;
      var (handed, list, inputs) := (Handed(blocks, ops, i), Listed(blocks, ops, i), ops[i].Reads());
      && (ReadsHanded(blocks[i]) ==> inputs == [handed])
      && (ReadsNothing(blocks[i]) ==> inputs == [])
      && (Refers(blocks[i]) ==> ReadsEntry(blocks[i], i, handed, list, inputs))
      && (KindIn(blocks[i], {"route"}) ==> ReadsEntries(blocks[i], list, inputs))
      && (ReadsHanded(blocks[i]) || ReadsNothing(blocks[i]) || Refers(blocks[i]) || KindIn(blocks[i], {"route"}))
  {
    hide Compile, KindIn, Op.Reads, ReadsHanded, ReadsNothing, Refers, ReadsEntry, ReadsEntries;
    VariablesAre(blocks, trt, n, i);
    OpAt(blocks, trt, n, i);
    var g := After(blocks, trt, i).value;
    OutputsOfOps(blocks, trt, i);
    if ReadsHanded(blocks[i]) { CompilesHanded(blocks[i], g, trt); }
    if Refers(blocks[i]) { CompilesReference(blocks[i], g, trt); }
    if KindIn(blocks[i], {"route"}) { CompilesRoute(blocks[i], g, trt); }
    CompilesKnown(blocks[i], g, trt);
  }

  lemma CompilesKnown(block: Block, g: Graph, trt: TensorRT)
    requires |g.ops| < INT_SPAN && Compile(block, g, trt).Some?
    ensures ReadsHanded(block) || ReadsNothing(block) || Refers(block) || KindIn(block, {"route"})
    ensures ReadsNothing(block) ==> Compile(block, g, trt).value.Reads() == []
  {
    hide Stoi, Activates, KernelSize, Deconvolution, BatchNorm, Implicit, Referenced, Routed;
  }

  // ---------- What each block takes, and its place ----------

  /** A block that reads weights, by its type and the channels of what it is handed. */
  ghost predicate PlannedAs(block: Block, dims: seq<int>, plan: Plan) {
    && (KindIn(block, {"convolutional"}) ==>
          |dims| == 4 && Convolution(block, "convolutional", dims[1]) == Some(plan))
    && (KindIn(block, {"deconvolutional"}) ==> |dims| == 4 && Deconvolution(block, dims[1]) == Some(plan))
    && (KindIn(block, {"batchnorm"}) ==> BatchNorm(block) == Some(plan))
    && (KindIn(block, {"implicit", "implicit_add", "implicit_mul"}) ==> Implicit(block) == Some(plan))
  }

  predicate TakesWeights(block: Block) {
    KindIn(block, {"convolutional", "deconvolutional", "batchnorm", "implicit", "implicit_add", "implicit_mul"})
  }

  lemma CompilesPlan(block: Block, g: Graph, trt: TensorRT)
    requires |g.ops| < INT_SPAN && Compile(block, g, trt).Some?
    ensures var op := Compile(block, g, trt).value;
      && (op.Weighted? <==> TakesWeights(block))
      && (op.Weighted? ==> PlannedAs(block, trt.shape(g.previous), op.plan))
  {
    hide Stoi, Activates, KernelSize, Deconvolution, BatchNorm, Implicit, Resolve, Resolved, LayerList;
  }

  /** The layer of block i was made of its own part of the weights: they start where those of the layers before it end,
      and are the scale values, biases and kernel that its keys and the channels of what it is handed call for. */
  lemma WeightsOfBlock(blocks: seq<Block>, trt: TensorRT, n: nat, i: nat, weights: seq<real>, sqrt: real -> real,
                       params: seq<Option<Params>>)
    requires i < n <= |blocks| < INT_SPAN && After(blocks, trt, n).Some?
    requires AllRead(After(blocks, trt, n).value.ops, weights, sqrt, params)
    ensures var ops := After(blocks, trt, n).value.ops;
      && (params[i].Some? <==> TakesWeights(blocks[i]))
      && (params[i].Some? ==>
            && ops[i].Weighted? && PlannedAs(blocks[i], trt.shape(Handed(blocks, ops, i)), ops[i].plan)
            && PartsOf(weights, Total(ops[..i]), ops[i].plan, params[i].value))
  {
    hide Compile, PartsOf, TakesWeights, PlannedAs, ParamsAt, Total;
    var ops := After(blocks, trt, n).value.ops;
    VariablesAre(blocks, trt, n, i);
    OpAt(blocks, trt, n, i);
    CompilesPlan(blocks[i], After(blocks, trt, i).value, trt);
    assert ReadAs(ops, weights, sqrt, i, params[i]);
    if ops[i].Weighted? { PartsByIndex(weights, Total(ops[..i]), ops[i].plan, sqrt); }
  }

  // ---------- Detection layers ----------

  lemma CompilesDetectionName(block: Block, g: Graph, trt: TensorRT)
    requires |g.ops| < INT_SPAN && Compile(block, g, trt).Some? && KindIn(block, {"yolo", "region"})
    ensures Compile(block, g, trt).value == Detection(g.previous, block["type"] + "_" + Show(|g.ops|))
    ensures |trt.shape(g.previous)| == 4
  {
  }

  /** The k-th detection block sizes record k: named after its type and position, the grid's height and width are axes
      2 and 3 of the tensor it is handed, and the rest is what the configuration says; the plugin's input k is that
      tensor. */
  lemma DetectionSizesRecord(blocks: seq<Block>, trt: TensorRT, i: nat, tensors: seq<TensorInfo<real>>,
                             sized: seq<TensorInfo<real>>)
    requires i < |blocks| < INT_SPAN && After(blocks, trt, |blocks|).Some? && KindIn(blocks[i], {"yolo", "region"})
    requires AllSized(sized, tensors, After(blocks, trt, |blocks|).value.detections, trt)
    ensures var (g, k) := (After(blocks, trt, |blocks|).value, YoloCount(blocks[..i]));
      var handed := Handed(blocks, g.ops, i);
      && k < |sized| && k < |tensors| && k < |g.detections| && g.detections[k].Reads() == [handed]
      && |trt.shape(handed)| == 4
      && sized[k].blobName == blocks[i]["type"] + "_" + Show(i)
      && sized[k].gridSizeY == trt.shape(handed)[2] % 0x1_0000_0000
      && sized[k].gridSizeX == trt.shape(handed)[3] % 0x1_0000_0000
      && (sized[k].numBBoxes, sized[k].scaleXY) == (tensors[k].numBBoxes, tensors[k].scaleXY)
      && (sized[k].anchors, sized[k].mask) == (tensors[k].anchors, tensors[k].mask)
  {
    hide Compile, YoloCount, KindIn;
    var (n, g, k) := (|blocks|, After(blocks, trt, |blocks|).value, YoloCount(blocks[..i]));
    VariablesAre(blocks, trt, n, i);
    OpAt(blocks, trt, n, i);
    CompilesDetectionName(blocks[i], After(blocks, trt, i).value, trt);
    DetectionsAreCounted(blocks, trt, i);
    Prefix(blocks, trt, i + 1, n);
    AddFacts(After(blocks, trt, i).value, g.ops[i]);
    assert g.detections[k] == g.ops[i];
    assert SizedBy(sized[k], tensors[k], g.detections[k], trt);
  }

  // ---------- Which blocks compile ----------

  predicate Numbers(block: Block, keys: set<string>) { forall k | k in keys :: Number(block, k).Some? }

  predicate NumbersIfAny(block: Block, keys: set<string>) {
    forall k | k in keys && k in block :: Number(block, k).Some?
  }

  predicate Activated(block: Block) {
    && "activation" in block
    && block["activation"] in {"linear", "relu", "sigmoid", "logistic", "tanh", "leaky", "softplus", "mish", "silu",
                               "swish", "hardsigmoid", "hardswish"}
  }

  lemma ActivatedExactly(block: Block)
    ensures Activated(block) <==> "activation" in block && Activates(block["activation"])
  {
  }

  // The size of the kernel, toward zero, is not negative.
  predicate KernelFits(F: int, channels: int, size: int, groups: int) {
    && F >= 0 && groups != 0
    && var n := F * channels * size * size;
       (groups > 0 ==> n > -groups) && (groups < 0 ==> n < -groups)
  }

  predicate ConvolutionKeys(block: Block, channels: int) {
    && Numbers(block, {"filters", "pad", "size", "stride"}) && NumbersIfAny(block, {"bias", "groups"})
    && KernelFits(Number(block, "filters").value, channels, Number(block, "size").value,
                  if "groups" in block then Number(block, "groups").value else 1)
  }

  lemma QuotientSign(a: int, b: int)
    requires b != 0
    ensures Quotient(a, b) >= 0 <==> (b > 0 ==> a > -b) && (b < 0 ==> a < -b)
  {
    QuotientIsTowardZero(a, b);
    SignOfQuotient(a, b, Quotient(a, b), a - Quotient(a, b) * b);
  }

  lemma SignOfQuotient(a: int, b: int, q: int, r: int)
    requires b != 0 && a == q * b + r && (b > 0 ==> -b < r < b) && (b < 0 ==> b < r < -b)
    requires (a >= 0 ==> r >= 0) && (a <= 0 ==> r <= 0)
    ensures q >= 0 <==> (b > 0 ==> a > -b) && (b < 0 ==> a < -b)
  {
    if q >= 0 { assert b > 0 ==> q * b >= 0; assert b < 0 ==> q * b <= 0; }
    if q <= -1 { assert b > 0 ==> q * b <= -b; assert b < 0 ==> q * b >= -b; }
  }

  lemma KernelSizeExactly(F: int, channels: int, size: int, groups: int)
    ensures KernelSize(F, channels, size, groups).Some? <==> KernelFits(F, channels, size, groups)
  {
    hide Quotient;
    if groups != 0 { QuotientSign(F * channels * size * size, groups); }
  }

  lemma ConvolutionExactly(block: Block, channels: int)
    ensures Convolution(block, "convolutional", channels).Some? <==>
      Activated(block) && ConvolutionKeys(block, channels)
    ensures Deconvolution(block, channels).Some? <==> ConvolutionKeys(block, channels)
  {
    hide Stoi, KernelSize, KernelFits, Activates, Activated;
    ActivatedExactly(block);
    assert Numbers(block, {"filters", "pad", "size", "stride"}) <==>
      (Number(block, "filters").Some? && Number(block, "pad").Some? && Number(block, "size").Some?
       && Number(block, "stride").Some?);
    assert NumbersIfAny(block, {"bias", "groups"}) <==>
      ("bias" in block ==> Number(block, "bias").Some?) && ("groups" in block ==> Number(block, "groups").Some?);
    if ConvolutionKeysNumbers(block) {
      KernelSizeExactly(Number(block, "filters").value, channels, Number(block, "size").value,
                        if "groups" in block then Number(block, "groups").value else 1);
    }
  }

  predicate ConvolutionKeysNumbers(block: Block) {
    Numbers(block, {"filters", "pad", "size", "stride"}) && NumbersIfAny(block, {"bias", "groups"})
  }

  predicate FiltersFit(block: Block) { Numbers(block, {"filters"}) && Number(block, "filters").value >= 0 }

  // Entry n of a list of size m exists.
  predicate Exists(m: nat, n: int) { 0 <= m + n && n < m }

  // `from` names an output before the last two blocks, with at most one block before i that has no output.
  predicate FromFits(block: Block, i: nat, m: nat) {
    && Number(block, "from").Some?
    && var from := Number(block, "from").value;
       m + 1 >= i && (0 < from < i - 2 || 1 - i <= from <= -2)
  }

  predicate RouteNumbersFit(block: Block, numbers: seq<int>, m: nat) {
    && numbers != [] && (forall k | 0 <= k < |numbers| :: Exists(m, numbers[k]))
    && (|numbers| > 1 ==> NumbersIfAny(block, {"axis"}))
  }

  predicate RouteFits(block: Block, m: nat) {
    && "layers" in block && LayerList(block["layers"]).Some?
    && RouteNumbersFit(block, LayerList(block["layers"]).value, m)
    && ("groups" in block ==> Numbers(block, {"groups", "group_id"}) && Number(block, "groups").value != 0)
  }

  /** What the loader demands of block i, handed a tensor of these dimensions, with m entries in the list. */
  predicate Compilable(block: Block, i: nat, dims: seq<int>, m: nat) {
    || KindIn(block, {"net", "dropout", "avg", "avgpool"})
    || (KindIn(block, {"convolutional"}) && |dims| == 4 && Activated(block) && ConvolutionKeys(block, dims[1]))
    || (KindIn(block, {"deconvolutional"}) && |dims| == 4 && ConvolutionKeys(block, dims[1]))
    || (KindIn(block, {"batchnorm"}) && Activated(block) && FiltersFit(block))
    || (KindIn(block, {"implicit", "implicit_add", "implicit_mul"}) && FiltersFit(block))
    || (KindIn(block, {"shift_channels", "control_channels"}) && FromFits(block, i, m))
    || (KindIn(block, {"shortcut", "sam"}) && ("activation" in block ==> Activated(block)) && FromFits(block, i, m))
    || (KindIn(block, {"route"}) && RouteFits(block, m))
    || (KindIn(block, {"upsample"}) && Numbers(block, {"stride"}))
    || (KindIn(block, {"max", "maxpool"}) && Numbers(block, {"size", "stride"}))
    || (KindIn(block, {"reorg", "reorg3d"})
        && NumbersIfAny(block, {"stride"}) && NumberOr(block, "stride", 1) != Some(0))
    || (KindIn(block, {"yolo", "region"}) && |dims| == 4)
  }

  lemma {:induction false} ResolvedExactly(numbers: seq<int>, list: seq<Wire>)
    ensures Resolved(numbers, list).Some? <==> forall k | 0 <= k < |numbers| :: Exists(|list|, numbers[k])
  {
    if numbers != [] {
      ResolvedExactly(numbers[..|numbers| - 1], list);
      assert RouteIndex(|list|, numbers[|numbers| - 1]).Some? <==> Exists(|list|, numbers[|numbers| - 1]);
    }
  }

  lemma ReferencedExactly(block: Block, g: Graph)
    requires |g.outputs| <= |g.ops| < INT_SPAN
    ensures Referenced(block, g).Some? <==> FromFits(block, |g.ops|, |g.outputs|)
  {
    hide Stoi, Resolve;
    if Number(block, "from").Some? { ResolveExactly(|g.ops|, |g.outputs|, Number(block, "from").value); }
  }

  lemma RoutedExactly(block: Block, g: Graph)
    ensures Routed(block, g).Some? <==> RouteFits(block, |g.outputs|)
  {
    hide Stoi, Resolved, LayerList, Exists;
    if "layers" in block && LayerList(block["layers"]).Some? {
      ResolvedExactly(LayerList(block["layers"]).value, g.outputs);
    }
  }

  lemma WeightedExactly(block: Block, g: Graph, trt: TensorRT)
    requires |g.ops| < INT_SPAN && TakesWeights(block)
    ensures Translate(block, g, trt).Some?
       <==> Compilable(block, |g.ops|, trt.shape(g.previous), |g.outputs|)
  {
    hide Stoi, Convolution, Deconvolution, ConvolutionKeys, Activates, Activated, Referenced, Routed, FromFits,
         RouteFits;
    ActivatedExactly(block);
    if |trt.shape(g.previous)| == 4 { ConvolutionExactly(block, trt.shape(g.previous)[1]); }
  }

  lemma OthersExactly(block: Block, g: Graph, trt: TensorRT)
    requires |g.outputs| <= |g.ops| < INT_SPAN && !TakesWeights(block) && !KindIn(block, {"conv"})
    ensures Translate(block, g, trt).Some?
       <==> Compilable(block, |g.ops|, trt.shape(g.previous), |g.outputs|)
  {
    hide Stoi, Convolution, Deconvolution, BatchNorm, Implicit, ConvolutionKeys, Activates, Activated, Referenced,
         Routed, FromFits, RouteFits;
    ActivatedExactly(block);
    ReferencedExactly(block, g);
    RoutedExactly(block, g);
  }

  /** A block is translated exactly when its keys, its references and the tensor it is handed allow it. */
  lemma TranslatedExactly(block: Block, g: Graph, trt: TensorRT)
    requires |g.outputs| <= |g.ops| < INT_SPAN
    ensures Translate(block, g, trt).Some?
       <==> Compilable(block, |g.ops|, trt.shape(g.previous), |g.outputs|)
  {
    hide Translate, Compilable, TakesWeights;
    if KindIn(block, {"conv"}) {
      ConvIsNone(block, g, trt);
    } else if TakesWeights(block) {
      WeightedExactly(block, g, trt);
    } else {
      OthersExactly(block, g, trt);
    }
  }

  lemma ConvIsNone(block: Block, g: Graph, trt: TensorRT)
    requires |g.ops| < INT_SPAN && KindIn(block, {"conv"})
    ensures Translate(block, g, trt).None? && !Compilable(block, |g.ops|, trt.shape(g.previous), |g.outputs|)
  {
  }

  // A block adds a layer unless it passes on one of the tensors it reads, or nothing.
  predicate AddsLayer(block: Block, op: Op) {
    && !KindIn(block, {"net", "dropout", "yolo", "region"})
    && (KindIn(block, {"route"}) ==> "groups" in block || |op.Reads()| > 1)
  }

  lemma LayerExactly(block: Block, g: Graph, op: Op, trt: TensorRT)
    requires |g.ops| < INT_SPAN && Translate(block, g, trt) == Some(op)
    ensures op.IsLayer() <==> AddsLayer(block, op)
  {
    hide Stoi, LayerList, Resolve, Resolved, Convolution, Deconvolution, BatchNorm, Implicit;
  }

  /** A graph grows by a block exactly when the block is compilable and TensorRT makes its layer, if it adds one. */
  lemma CompiledExactly(blocks: seq<Block>, trt: TensorRT, n: nat)
    requires n < |blocks| < INT_SPAN && After(blocks, trt, n).Some?
    ensures var (g, ops) := (After(blocks, trt, n).value, After(blocks, trt, n).value.ops);
      var ok := Compilable(blocks[n], n, trt.shape(Handed(blocks, ops, n)), |Listed(blocks, ops, n)|);
      && (Translate(blocks[n], g, trt).Some? <==> ok)
      && (After(blocks, trt, n + 1).Some? <==>
            ok && var op := Translate(blocks[n], g, trt).value; (AddsLayer(blocks[n], op) ==> trt.makes(n, op)))
      && (After(blocks, trt, n + 1).Some? ==>
            After(blocks, trt, n + 1).value.ops == ops + [Translate(blocks[n], g, trt).value])
  {
    hide Translate, Compilable, Handed, Listed, AddsLayer, Op.IsLayer, KindIn, Op.Reads;
    var g := After(blocks, trt, n).value;
    VariablesAre(blocks, trt, n, n);
    OutputsOfOps(blocks, trt, n);
    TranslatedExactly(blocks[n], g, trt);
    if Translate(blocks[n], g, trt).Some? { LayerExactly(blocks[n], g, Translate(blocks[n], g, trt).value, trt); }
  }

  // ---------- The plugin of a file ----------

  /** The record of the detection block at i, whose input has these dimensions. */
  ghost predicate RecordOfBlock(t: TensorInfo<real>, block: Block, i: nat, dims: seq<int>, stof: Stof) {
    && "type" in block && t.blobName == block["type"] + "_" + Show(i)
    && |dims| == 4 && t.gridSizeY == dims[2] % 0x1_0000_0000 && t.gridSizeX == dims[3] % 0x1_0000_0000
    && CfgMeaning.Describes(t.(blobName := "", gridSizeX := 0, gridSizeY := 0), block, stof)
  }

  /** The plugin of a loaded file: its sizes, classes and new_coords are those of the last blocks that have the keys,
      record k is that of the k-th detection block, and its input k the tensor that block is handed. */
  lemma PluginOfFile(r: Network, blocks: seq<Block>, trt: TensorRT, weights: seq<real>, sqrt: real -> real, stof: Stof,
                     i: nat)
    requires |blocks| < INT_SPAN && Loads(blocks, trt, weights, stof) && i < |blocks|
    requires BuiltFrom(r, blocks, trt, weights, sqrt, Configured(blocks, stof).value)
    ensures CfgMeaning.OfLast(blocks, {"net"}, "width", r.plugin.netWidth)
    ensures CfgMeaning.OfLast(blocks, {"net"}, "height", r.plugin.netHeight)
    ensures CfgMeaning.OfLast(blocks, {"yolo", "region"}, "classes", r.plugin.numClasses)
    ensures CfgMeaning.OfLast(blocks, {"yolo", "region"}, "new_coords", r.plugin.newCoords)
    ensures KindIn(blocks[i], {"yolo", "region"}) ==>
      var (k, handed) := (YoloCount(blocks[..i]), Handed(blocks, r.graph.ops, i));
      && k < |r.plugin.tensors| && RecordOfBlock(r.plugin.tensors[k], blocks[i], i, trt.shape(handed), stof)
      && k < |r.graph.detections| && r.graph.detections[k].Reads() == [handed]
  {
    hide After, AllRead, AllSized, Configured, CfgMeaning.OfLast, CfgMeaning.Describes, Handed, YoloCount;
    CfgMeaning.NumbersAreLast(blocks, stof);
    if KindIn(blocks[i], {"yolo", "region"}) {
      var c := Configured(blocks, stof).value;
      DetectionSizesRecord(blocks, trt, i, c.tensors, r.plugin.tensors);
      CfgMeaning.RecordsInOrder(blocks, stof, i);
      var k := YoloCount(blocks[..i]);
      SameRecord(r.plugin.tensors[k], c.tensors[k], blocks[i], stof);
    }
  }

  /** When a file whose blocks all compile loads: its blocks are well formed, TensorRT takes an input of the last net
      block's channels, height and width, in this order, neither side is zero, the layers take exactly the weights there
      are, and the plugin is made. */
  lemma LoadsExactly(blocks: seq<Block>, trt: TensorRT, weights: seq<real>, stof: Stof, c: nat, h: nat, w: nat)
    requires |blocks| < INT_SPAN && After(blocks, trt, |blocks|).Some?
    requires CfgMeaning.OfLast(blocks, {"net"}, "channels", c) && CfgMeaning.OfLast(blocks, {"net"}, "height", h)
    requires CfgMeaning.OfLast(blocks, {"net"}, "width", w)
    ensures var g := After(blocks, trt, |blocks|).value;
      Loads(blocks, trt, weights, stof)
      <==> && (forall i | 0 <= i < |blocks| :: CfgMeaning.WellFormed(blocks[i], stof))
           && trt.takesInput(c, h, w) && h > 0 && w > 0
           && Total(g.ops) == |weights| && trt.plugs(g.detections)
  {
    hide After, Configured, Total, CfgMeaning.OfLast, CfgMeaning.WellFormed;
    CfgMeaning.AcceptedExactly(blocks, stof);
    CursorIsTotal(blocks, trt, |blocks|);
    if Configured(blocks, stof).Some? {
      var d := Configured(blocks, stof).value;
      CfgMeaning.NumbersAreLast(blocks, stof);
      CfgMeaning.OfLastOnce(blocks, {"net"}, "channels", c, d.inputC);
      CfgMeaning.OfLastOnce(blocks, {"net"}, "height", h, d.inputH);
      CfgMeaning.OfLastOnce(blocks, {"net"}, "width", w, d.inputW);
    }
  }

  lemma SameRecord(t: TensorInfo<real>, u: TensorInfo<real>, block: Block, stof: Stof)
    requires (t.numBBoxes, t.scaleXY, t.anchors, t.mask) == (u.numBBoxes, u.scaleXY, u.anchors, u.mask)
    requires CfgMeaning.Describes(u, block, stof)
    ensures CfgMeaning.Describes(t.(blobName := "", gridSizeX := 0, gridSizeY := 0), block, stof)
  {
    hide Stoul, ListAfter, Trim;
    assert t.(blobName := "", gridSizeX := 0, gridSizeY := 0) == u;
  }
}
