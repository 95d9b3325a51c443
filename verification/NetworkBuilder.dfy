/** buildYoloNetwork of yolo.cpp: from configuration blocks and one flat list of weights to a layer graph.
    None is a failed assert, an exception or a read out of bounds. */
module NetworkBuilder {
  import opened Options
  import opened CfgParser
  import opened CfgNumbers
  import opened CfgBlocks
  import opened LayerRefs
  import opened WeightCursor
  import opened YoloTensor
  import opened YoloLayout
  import opened YoloValues

  // A tensor of the network: the input, or the result of the layer of a block.
  datatype Wire = Input | Output(block: nat)

  /** What TensorRT answers: whether it takes an input of these channels, height and width, what getDimensions
      returns, whether it makes the layer of a block, and whether it makes the plugin layer with its inputs. */
  datatype TensorRT = TensorRT(
    takesInput: (nat, nat, nat) -> bool,
    shape: Wire -> seq<int>,
    makes: (nat, Op) -> bool,
    plugs: seq<Op> -> bool)

  datatype Op =
    | Nothing
    | Detection(input: Wire, blobName: string)
    | Weighted(inputs: seq<Wire>, plan: Plan)
    | Join(input: Wire, other: Wire)
    | Route(inputs: seq<Wire>, sliced: bool)
    | Apply(input: Wire)
  {
    function Reads(): seq<Wire> {
      match this
      case Nothing => []
      case Detection(t, _) => [t]
      case Weighted(ts, _) => ts
      case Join(t, u) => [t, u]
      case Route(ts, _) => ts
      case Apply(t) => [t]
    }

    function Count(): nat { if Weighted? then plan.Count() else 0 }

    // net, dropout and detection blocks, and a route to one tensor, add no layer.
    predicate IsLayer() {
      match this
      case Route(ts, sliced) => |ts| > 1 || sliced
      case _ => !Nothing? && !Detection?
    }
  }

  /** The variables of the loop: the layers so far, previous, tensorOutputs, yoloTensorInputs and weightPtr. */
  datatype Graph = Graph(
    ops: seq<Op>,
    previous: Wire,
    outputs: seq<Wire>,
    detections: seq<Op>,
    weightPtr: nat)

  const START_GRAPH := Graph([], Input, [], [], 0)

  // ---------- One block ----------

  function Number(block: Block, key: string): (r: Option<int>)
    ensures r.Some? ==> IsInt(r.value)
  {
    if key in block then Stoi(block[key]) else None
  }

  function NumberOr(block: Block, key: string, default: int): Option<int> {
    if key in block then Stoi(block[key]) else Some(default)
  }

  predicate Activates(name: string) {
    name in {"linear", "relu", "sigmoid", "logistic", "tanh", "leaky", "softplus", "mish", "silu", "swish",
             "hardsigmoid", "hardswish"}
  }

  // Integer division of C++, toward zero.
  function Quotient(a: int, b: int): int
    requires b != 0
  {
    if a >= 0 || a % b == 0 then a / b else a / b + (if b > 0 then 1 else -1)
  }

  lemma QuotientIsTowardZero(a: int, b: int)
    requires b != 0
    ensures var r := a - Quotient(a, b) * b;
      && (b > 0 ==> -b < r < b) && (b < 0 ==> b < r < -b)
      && (a >= 0 ==> r >= 0) && (a <= 0 ==> r <= 0)
  {
  }

  // getNumChannels.
  function Channels(dims: seq<int>): Option<int> { if |dims| == 4 then Some(dims[1]) else None }

  // The int `size` of the kernel array; a negative one makes new[] throw.
  function KernelSize(filters: int, channels: int, size: int, groups: int): (r: Option<nat>) {
    if groups == 0 || filters < 0 || Quotient(filters * channels * size * size, groups) < 0 then None
    else Some(Quotient(filters * channels * size * size, groups))
  }

  function Convolution(block: Block, kind: string, channels: int): Option<Plan> {
    // "conv" passes the dispatch but not the assert of convolutionalLayer.
    if kind != "convolutional" || "activation" !in block || !Activates(block["activation"]) then None
    else
      var filters :- Number(block, "filters");
      var _ :- Number(block, "pad");
      var size :- Number(block, "size");
      var _ :- Number(block, "stride");
      var normed := "batch_normalize" in block && block["batch_normalize"] == "1";
      var bias :- NumberOr(block, "bias", if "batch_normalize" in block then 0 else filters);
      var groups :- NumberOr(block, "groups", 1);
      var kernel :- KernelSize(filters, channels, size, groups);
      Some(Plan(normed, bias != 0, filters, kernel))
  }

  /** The weights of a convolution in the terms of its keys: four values a filter if batch_normalize is 1, a bias a
      filter unless batch_normalize or a zero bias says otherwise, and filters * channels * size^2 / groups. */
  lemma ConvolutionCounts(block: Block, channels: nat, F: nat, k: nat, g: nat)
    requires Convolution(block, "convolutional", channels).Some?
    requires Number(block, "filters") == Some(F) && Number(block, "size") == Some(k)
    requires NumberOr(block, "groups", 1) == Some(g) && g > 0
    ensures var plan := Convolution(block, "convolutional", channels).value;
      plan.Count()
      == (if "batch_normalize" in block && block["batch_normalize"] == "1" then 4 * F else 0)
       + (if if "bias" in block then Number(block, "bias") != Some(0) else "batch_normalize" !in block then F else 0)
       + F * channels * k * k / g
    ensures var plan := Convolution(block, "convolutional", channels).value;
      && plan.filters == F && plan.kernel == F * channels * k * k / g
      && (plan.normed <==> "batch_normalize" in block && block["batch_normalize"] == "1")
      && (F > 0 ==> (plan.biased <==>
            if "bias" in block then Number(block, "bias") != Some(0) else "batch_normalize" !in block))
  {
    hide Stoi, Activates, Quotient;
    ProductNat(F, channels, k, g);
  }

  lemma ProductNat(F: nat, c: nat, k: nat, g: nat)
    requires g > 0
    ensures F * c * k * k >= 0 && Quotient(F * c * k * k, g) == F * c * k * k / g
  {
  }

  function Deconvolution(block: Block, channels: int): Option<Plan> {
    var filters :- Number(block, "filters");
    var _ :- Number(block, "pad");
    var size :- Number(block, "size");
    var _ :- Number(block, "stride");
    var groups :- NumberOr(block, "groups", 1);
    var bias :- NumberOr(block, "bias", filters);
    var kernel :- KernelSize(filters, channels, size, groups);
    Some(Plan(false, bias != 0, filters, kernel))
  }

  function BatchNorm(block: Block): Option<Plan> {
    var filters :- Number(block, "filters");
    if filters < 0 || "activation" !in block || !Activates(block["activation"]) then None
    else Some(Plan(true, false, filters, 0))
  }

  function Implicit(block: Block): Option<Plan> {
    var filters :- Number(block, "filters");
    if filters < 0 then None else Some(Plan(false, false, filters, filters))
  }

  /** As a convolution without normalisation, where a bias of 1 is not special. */
  lemma DeconvolutionCounts(block: Block, channels: nat, F: nat, k: nat, g: nat)
    requires Deconvolution(block, channels).Some?
    requires Number(block, "filters") == Some(F) && Number(block, "size") == Some(k)
    requires NumberOr(block, "groups", 1) == Some(g) && g > 0
    ensures Deconvolution(block, channels).value.Count()
         == (if "bias" in block && Number(block, "bias") == Some(0) then 0 else F) + F * channels * k * k / g
    ensures var plan := Deconvolution(block, channels).value;
      && !plan.normed && plan.filters == F && plan.kernel == F * channels * k * k / g
      && (F > 0 ==> (plan.biased <==> !("bias" in block && Number(block, "bias") == Some(0))))
  {
    hide Stoi, Quotient;
    ProductNat(F, channels, k, g);
  }

  /** Four values a filter. */
  lemma BatchNormCounts(block: Block, F: nat)
    requires Number(block, "filters") == Some(F)
    ensures BatchNorm(block).Some? <==> "activation" in block && Activates(block["activation"])
    ensures BatchNorm(block).Some? ==>
      BatchNorm(block).value.Count() == 4 * F && BatchNorm(block).value == Plan(true, false, F, 0)
  {
  }

  /** One value a filter. */
  lemma ImplicitCounts(block: Block, F: nat)
    requires Number(block, "filters") == Some(F)
    ensures Implicit(block).Some? && Implicit(block).value.Count() == F
    ensures Implicit(block).value == Plan(false, false, F, F)
  {
  }

  predicate ActivatesOrNot(block: Block) { "activation" in block ==> Activates(block["activation"]) }

  function Referenced(block: Block, g: Graph): Option<Op>
    requires |g.ops| < INT_SPAN
  {
    var from :- Number(block, "from");
    var k :- Resolve(|g.ops|, |g.outputs|, from);
    // Resolve compares k with tensorOutputs.size().
    if k < |g.outputs| then Some(Join(g.previous, g.outputs[k])) else None
  }

  function Resolved(list: seq<int>, outputs: seq<Wire>): (r: Option<seq<Wire>>)
    ensures r.Some? ==> |r.value| == |list|
  {
    if list == [] then Some([])
    else
      var init :- Resolved(list[..|list| - 1], outputs);
      var k :- RouteIndex(|outputs|, list[|list| - 1]);
      Some(init + [outputs[k]])
  }

  function Routed(block: Block, g: Graph): Option<Op> {
    if "layers" !in block then None
    else
      var list :- LayerList(block["layers"]);
      var inputs :- Resolved(list, g.outputs);
      if inputs == [] then None
      else if |inputs| > 1 && NumberOr(block, "axis", 0).None? then None
      else if "groups" !in block then Some(Route(inputs, false))
      else
        var groups :- Number(block, "groups");
        var _ :- Number(block, "group_id");
        if groups == 0 then None else Some(Route(inputs, true))
  }

  // The dispatch on the type of the block.
  function Translate(block: Block, g: Graph, trt: TensorRT): Option<Op>
    requires |g.ops| < INT_SPAN
  {
    if "type" !in block then None
    else
      var kind := block["type"];
      if kind in {"net", "dropout"} then Some(Nothing)
      else if kind in {"conv", "convolutional"} then
        var channels :- Channels(trt.shape(g.previous));
        var plan :- Convolution(block, kind, channels);
        Some(Weighted([g.previous], plan))
      else if kind == "deconvolutional" then
        var channels :- Channels(trt.shape(g.previous));
        var plan :- Deconvolution(block, channels);
        Some(Weighted([g.previous], plan))
      else if kind == "batchnorm" then
        var plan :- BatchNorm(block);
        Some(Weighted([g.previous], plan))
      else if kind in {"implicit", "implicit_add", "implicit_mul"} then
        var plan :- Implicit(block);
        Some(Weighted([], plan))
      else if kind in {"shift_channels", "control_channels"} then Referenced(block, g)
      else if kind in {"shortcut", "sam"} then
        if ActivatesOrNot(block) then Referenced(block, g) else None
      else if kind == "route" then Routed(block, g)
      else if kind == "upsample" then
        var _ :- Number(block, "stride");
        Some(Apply(g.previous))
      else if kind in {"max", "maxpool"} then
        var _ :- Number(block, "size");
        var _ :- Number(block, "stride");
        Some(Apply(g.previous))
      else if kind in {"avg", "avgpool"} then Some(Apply(g.previous))
      else if kind in {"reorg", "reorg3d"} then
        var stride :- NumberOr(block, "stride", 1);
        if stride == 0 then None else Some(Apply(g.previous))
      else if kind in {"yolo", "region"} then
        if |trt.shape(g.previous)| == 4 then Some(Detection(g.previous, kind + "_" + Show(|g.ops|))) else None
      else None
  }

  /** The layer of a block, if TensorRT makes it. */
  function Compile(block: Block, g: Graph, trt: TensorRT): Option<Op>
    requires |g.ops| < INT_SPAN
  {
    var op :- Translate(block, g, trt);
    if op.IsLayer() && !trt.makes(|g.ops|, op) then None else Some(op)
  }

  // A route with one input and no slice is that input.
  function Result(g: Graph, op: Op): Wire {
    match op
    case Nothing => g.previous
    case Detection(t, _) => t
    case Route(ts, sliced) => if |ts| == 1 && !sliced then ts[0] else Output(|g.ops|)
    case _ => Output(|g.ops|)
  }

  function Add(g: Graph, op: Op): Graph {
    Graph(g.ops + [op],
          Result(g, op),
          if op.Nothing? then g.outputs else g.outputs + [Result(g, op)],
          if op.Detection? then g.detections + [op] else g.detections,
          g.weightPtr + op.Count())
  }

  // The loop after n blocks.
  function After(blocks: seq<Block>, trt: TensorRT, n: nat): (r: Option<Graph>)
    requires n <= |blocks| < INT_SPAN
    ensures r.Some? ==> |r.value.ops| == n
  {
    if n == 0 then Some(START_GRAPH)
    else
      var g :- After(blocks, trt, n - 1);
      var op :- Compile(blocks[n - 1], g, trt);
      Some(Add(g, op))
  }

  /** The dispatch lets a block of type conv through to a layer that refuses it. */
  lemma ConvIsRefused(block: Block, g: Graph, trt: TensorRT)
    requires |g.ops| < INT_SPAN && "type" in block && block["type"] == "conv"
    ensures Compile(block, g, trt).None?
  {
  }

  // ---------- The whole load ----------

  datatype Network = Network(graph: Graph, params: seq<Option<Params>>, plugin: Layer)

  /** When the build succeeds: TensorRT takes the input, every block compiles, the counts add up to the size of the
      weight file, and the plugin accepts the input size and is made. */
  predicate Builds(blocks: seq<Block>, trt: TensorRT, weights: seq<real>, c: Config)
    requires |blocks| < INT_SPAN
  {
    var g := After(blocks, trt, |blocks|);
    && trt.takesInput(c.inputC, c.inputH, c.inputW)
    && g.Some? && g.value.weightPtr == |weights|
    && c.inputW > 0 && c.inputH > 0
    && trt.plugs(g.value.detections)
  }

  /** When a load succeeds: the blocks are well formed one by one, and the build succeeds. */
  predicate Loads(blocks: seq<Block>, trt: TensorRT, weights: seq<real>, stof: Stof)
    requires |blocks| < INT_SPAN
  {
    var c := Configured(blocks, stof);
    c.Some? && Builds(blocks, trt, weights, c.value)
  }

  // Where the layer of block j starts to read.
  function Start(blocks: seq<Block>, trt: TensorRT, j: nat): nat
    requires j <= |blocks| < INT_SPAN && After(blocks, trt, j).Some?
  {
    After(blocks, trt, j).value.weightPtr
  }

  lemma {:induction false} Prefix(blocks: seq<Block>, trt: TensorRT, m: nat, n: nat)
    requires m <= n <= |blocks| < INT_SPAN && After(blocks, trt, n).Some?
    ensures After(blocks, trt, m).Some?
    ensures Start(blocks, trt, m) <= Start(blocks, trt, n)
    ensures After(blocks, trt, m).value.ops == After(blocks, trt, n).value.ops[..m]
    ensures After(blocks, trt, m).value.detections <= After(blocks, trt, n).value.detections
    decreases n
  {
    hide Compile;
    if m < n {
      Prefix(blocks, trt, m, n - 1);
      assert After(blocks, trt, n - 1).value.ops == After(blocks, trt, n).value.ops[..n - 1];
    }
  }

  // The weights that the layers take, one after the other.
  function Total(ops: seq<Op>): nat { if ops == [] then 0 else Total(ops[..|ops| - 1]) + ops[|ops| - 1].Count() }

  // Layer j was made of the weights that follow those of the layers before it.
  ghost predicate ReadAs(ops: seq<Op>, weights: seq<real>, sqrt: real -> real, j: nat, params: Option<Params>) {
    && j < |ops|
    && var p := Total(ops[..j]);
       if ops[j].Weighted? then
         && p + ops[j].plan.Count() <= |weights|
         && params == Some(ParamsAt(weights, p, ops[j].plan, sqrt))
       else params == None
  }

  ghost predicate AllRead(ops: seq<Op>, weights: seq<real>, sqrt: real -> real, params: seq<Option<Params>>) {
    |params| == |ops| && forall j | 0 <= j < |ops| :: ReadAs(ops, weights, sqrt, j, params[j])
  }

  // The grid sizes of the detection layers.
  predicate SizedBy(t: TensorInfo<real>, before: TensorInfo<real>, d: Op, trt: TensorRT) {
    && d.Detection? && |trt.shape(d.input)| == 4
    && var dims := trt.shape(d.input);
       t == before.(blobName := d.blobName, gridSizeY := Uint(dims[2]), gridSizeX := Uint(dims[3]))
  }

  predicate AllSized(sized: seq<TensorInfo<real>>, tensors: seq<TensorInfo<real>>, detections: seq<Op>, trt: TensorRT) {
    && |detections| <= |sized| == |tensors|
    && (forall k | 0 <= k < |detections| :: SizedBy(sized[k], tensors[k], detections[k], trt))
    && (forall k | |detections| <= k < |sized| :: sized[k] == tensors[k])
  }

  // parseConfigBlocks and buildYoloNetwork count the same blocks.
  lemma {:induction false} DetectionsAreCounted(blocks: seq<Block>, trt: TensorRT, n: nat)
    requires n <= |blocks| < INT_SPAN && After(blocks, trt, n).Some?
    ensures |After(blocks, trt, n).value.detections| == YoloCount(blocks[..n]) <= YoloCount(blocks)
  {
    if n > 0 {
      Prefix(blocks, trt, n - 1, n);
      DetectionsAreCounted(blocks, trt, n - 1);
      assert blocks[..n][..n - 1] == blocks[..n - 1];
      CompilesDetection(blocks[n - 1], After(blocks, trt, n - 1).value, trt);
    }
    CountGrows(blocks, n);
  }

  lemma CompilesDetection(block: Block, g: Graph, trt: TensorRT)
    requires |g.ops| < INT_SPAN && Compile(block, g, trt).Some?
    ensures Compile(block, g, trt).value.Detection? <==> IsDetection(block)
    ensures Compile(block, g, trt).value.Detection? ==> |trt.shape(Compile(block, g, trt).value.input)| == 4
  {
  }

  lemma {:induction false} CountGrows(blocks: seq<Block>, n: nat)
    requires n <= |blocks|
    ensures YoloCount(blocks[..n]) <= YoloCount(blocks)
  {
    if n < |blocks| {
      CountGrows(blocks[..|blocks| - 1], n);
      assert blocks[..|blocks| - 1][..n] == blocks[..n];
    } else {
      assert blocks[..n] == blocks;
    }
  }

  /** A network as the blocks, the weights and the configuration say. */
  ghost predicate BuiltFrom(r: Network, blocks: seq<Block>, trt: TensorRT, weights: seq<real>, sqrt: real -> real,
                            c: Config)
    requires |blocks| < INT_SPAN && After(blocks, trt, |blocks|).Some?
  {
    && r.graph == After(blocks, trt, |blocks|).value
    && AllRead(r.graph.ops, weights, sqrt, r.params)
    && |r.graph.detections| == |c.tensors|
    && AllSized(r.plugin.tensors, c.tensors, r.graph.detections, trt)
    && r.plugin.outputSize == OutputSize(r.plugin.tensors)
    && (r.plugin.netWidth, r.plugin.netHeight) == (c.inputW, c.inputH)
    && (r.plugin.numClasses, r.plugin.newCoords) == (c.numClasses, c.newCoords)
  }

  // The variables of the loop over the blocks.
  datatype Progress = Progress(graph: Graph, params: seq<Option<Params>>, tensors: seq<TensorInfo<real>>)

  /** The loop over the blocks. tensors holds what parseConfigBlocks stored, one record for each detection layer. */
  method BuildLayers(blocks: seq<Block>, trt: TensorRT, weights: seq<real>, sqrt: real -> real,
                     tensors: seq<TensorInfo<real>>)
    returns (r: Option<Progress>)
    requires |blocks| < INT_SPAN && |tensors| == YoloCount(blocks)
    ensures r.Some? ==> After(blocks, trt, |blocks|) == Some(r.value.graph)
    ensures r.Some? ==> AllRead(r.value.graph.ops, weights, sqrt, r.value.params)
    ensures r.Some? ==> AllSized(r.value.tensors, tensors, r.value.graph.detections, trt)
    ensures r.None? ==> After(blocks, trt, |blocks|).None? || Start(blocks, trt, |blocks|) > |weights|
  {
    hide Compile, Add, YoloCount, AllRead, AllSized, Total;
    var g := START_GRAPH;
    var params: seq<Option<Params>> := [];
    var sized := tensors;
    NothingRead(weights, sqrt, tensors, trt);
    for i := 0 to |blocks|
      invariant After(blocks, trt, i) == Some(g) && g.weightPtr == Total(g.ops)
      invariant AllRead(g.ops, weights, sqrt, params) && AllSized(sized, tensors, g.detections, trt)
    {
      var op := Compile(blocks[i], g, trt);
      if op.None? {
        FailsForever(blocks, trt, i + 1, |blocks|);
        return None;
      }
      AddFacts(g, op.value);
      DetectionsAreCounted(blocks, trt, i + 1);
      var layer: Option<Params> := None;
      if op.value.Weighted? {
        var ok, read, weightPtr := ReadLayer(weights, g.weightPtr, op.value.plan, sqrt);
        if !ok {
          NeverFits(blocks, trt, i + 1);
          return None;
        }
        layer := Some(read);
      }
      ReadOneMore(g.ops, op.value, weights, sqrt, params, layer);
      params := params + [layer];
      if op.value.Detection? {
        CompilesDetection(blocks[i], g, trt);
        sized := SetSize(sized, tensors, g.detections, op.value, trt);
      }
      g := Add(g, op.value);
    }
    r := Some(Progress(g, params, sized));
  }

  /** c holds what parseConfigBlocks stored. */
  method BuildYoloNetwork(blocks: seq<Block>, trt: TensorRT, weights: seq<real>, sqrt: real -> real, c: Config)
    returns (r: Option<Network>)
    requires |blocks| < INT_SPAN && |c.tensors| == YoloCount(blocks)
    ensures r.Some? <==> Builds(blocks, trt, weights, c)
    ensures r.Some? ==> BuiltFrom(r.value, blocks, trt, weights, sqrt, c)
  {
    hide After, AllRead, AllSized, YoloCount;
    if !trt.takesInput(c.inputC, c.inputH, c.inputW) { return None; }
    var p := BuildLayers(blocks, trt, weights, sqrt, c.tensors);
    if p.None? { return None; }
    var g := p.value.graph;
    if |weights| != g.weightPtr { return None; }
    DetectionsAreCounted(blocks, trt, |blocks|);
    assert blocks[..|blocks|] == blocks;
    var outputSize := BuildOutputSize(p.value.tensors);
    if c.inputW == 0 || c.inputH == 0 || !trt.plugs(g.detections) { return None; }
    r := Some(Network(g, p.value.params,
                      Layer(c.inputW, c.inputH, c.numClasses, c.newCoords, outputSize, p.value.tensors)));
  }

  // A detection layer fills in the next record.
  method SetSize(sized: seq<TensorInfo<real>>, tensors: seq<TensorInfo<real>>, detections: seq<Op>, op: Op,
                 trt: TensorRT)
    returns (r: seq<TensorInfo<real>>)
    requires AllSized(sized, tensors, detections, trt) && |detections| < |tensors|
    requires op.Detection? && |trt.shape(op.input)| == 4
    ensures AllSized(r, tensors, detections + [op], trt)
  {
    var dims := trt.shape(op.input);
    var curYoloTensor := sized[|detections|];
    curYoloTensor := curYoloTensor.(blobName := op.blobName);
    curYoloTensor := curYoloTensor.(gridSizeY := Uint(dims[2]));
    curYoloTensor := curYoloTensor.(gridSizeX := Uint(dims[3]));
    r := sized[|detections| := curYoloTensor];
  }

  lemma NothingRead(weights: seq<real>, sqrt: real -> real, tensors: seq<TensorInfo<real>>, trt: TensorRT)
    ensures Total([]) == 0 && AllRead([], weights, sqrt, []) && AllSized(tensors, tensors, [], trt)
  {
  }

  lemma ReadOneMore(ops: seq<Op>, op: Op, weights: seq<real>, sqrt: real -> real, params: seq<Option<Params>>,
                    layer: Option<Params>)
    requires AllRead(ops, weights, sqrt, params)
    requires if op.Weighted? then
        Total(ops) + op.plan.Count() <= |weights| && layer == Some(ParamsAt(weights, Total(ops), op.plan, sqrt))
      else layer == None
    ensures AllRead(ops + [op], weights, sqrt, params + [layer]) && Total(ops + [op]) == Total(ops) + op.Count()
  {
    hide ParamsAt;
    assert (ops + [op])[..|ops|] == ops;
    forall j | 0 <= j <= |ops| ensures ReadAs(ops + [op], weights, sqrt, j, (params + [layer])[j]) {
      if j < |ops| {
        assert ReadAs(ops, weights, sqrt, j, params[j]);
        assert (ops + [op])[..j] == ops[..j];
      }
    }
  }

  lemma AddFacts(g: Graph, op: Op)
    ensures Add(g, op).ops == g.ops + [op]
    ensures Add(g, op).weightPtr == g.weightPtr + op.Count()
    ensures Add(g, op).detections == if op.Detection? then g.detections + [op] else g.detections
  {
  }

  lemma {:induction false} FailsForever(blocks: seq<Block>, trt: TensorRT, m: nat, n: nat)
    requires m <= n <= |blocks| < INT_SPAN && After(blocks, trt, m).None?
    ensures After(blocks, trt, n).None?
  {
    if After(blocks, trt, n).Some? { Prefix(blocks, trt, m, n); }
  }

  lemma NeverFits(blocks: seq<Block>, trt: TensorRT, m: nat)
    requires m <= |blocks| < INT_SPAN && After(blocks, trt, m).Some?
    ensures After(blocks, trt, |blocks|).Some? ==> Start(blocks, trt, |blocks|) >= Start(blocks, trt, m)
  {
    if After(blocks, trt, |blocks|).Some? { Prefix(blocks, trt, m, |blocks|); }
  }

  // ---------- What a load means ----------

  /** The cursor is the sum of the counts of the layers. */
  lemma {:induction false} CursorIsTotal(blocks: seq<Block>, trt: TensorRT, n: nat)
    requires n <= |blocks| < INT_SPAN && After(blocks, trt, n).Some?
    ensures Start(blocks, trt, n) == Total(After(blocks, trt, n).value.ops)
  {
    hide Compile;
    if n > 0 {
      CursorIsTotal(blocks, trt, n - 1);
      assert After(blocks, trt, n).value.ops[..n - 1] == After(blocks, trt, n - 1).value.ops;
    }
  }

  // Weight p is read by layer j.
  predicate TakenBy(ops: seq<Op>, p: nat, j: nat)
    requires j < |ops|
  {
    Total(ops[..j]) <= p < Total(ops[..j + 1])
  }

  /** In a successful load every weight is read by exactly one layer. */
  lemma EveryWeightOnce(blocks: seq<Block>, trt: TensorRT, weights: seq<real>, stof: Stof, p: nat) returns (j: nat)
    requires |blocks| < INT_SPAN && Loads(blocks, trt, weights, stof) && p < |weights|
    ensures var ops := After(blocks, trt, |blocks|).value.ops;
      j < |ops| && forall k | 0 <= k < |ops| :: TakenBy(ops, p, k) <==> k == j
  {
    hide After, Total, Configured;
    CursorIsTotal(blocks, trt, |blocks|);
    var ops := After(blocks, trt, |blocks|).value.ops;
    assert ops[..|ops|] == ops;
    j := Taker(ops, |ops|, p);
    forall k | 0 <= k < |ops| ensures TakenBy(ops, p, k) <==> k == j {
      if k < j { TotalGrows(ops, k + 1, j); }
      if k > j { TotalGrows(ops, j + 1, k); }
    }
  }

  lemma {:induction false} TotalGrows(ops: seq<Op>, j: nat, k: nat)
    requires j <= k <= |ops|
    ensures Total(ops[..j]) <= Total(ops[..k])
    decreases k
  {
    if j < k {
      TotalGrows(ops, j, k - 1);
      assert ops[..k][..k - 1] == ops[..k - 1];
    }
  }

  lemma {:induction false} Taker(ops: seq<Op>, n: nat, p: nat) returns (j: nat)
    requires n <= |ops| && p < Total(ops[..n])
    ensures j < n && TakenBy(ops, p, j)
  {
    if p < Total(ops[..n - 1]) { j := Taker(ops, n - 1, p); } else { j := n - 1; }
  }

  // ---------- References ----------

  predicate Earlier(t: Wire, n: nat) { t.Output? ==> t.block < n }

  predicate AllEarlier(ts: seq<Wire>, n: nat) { forall k | 0 <= k < |ts| :: Earlier(ts[k], n) }

  lemma {:induction false} ResolvedAreOutputs(list: seq<int>, outputs: seq<Wire>, n: nat)
    requires Resolved(list, outputs).Some? && AllEarlier(outputs, n)
    ensures AllEarlier(Resolved(list, outputs).value, n)
    ensures forall k | 0 <= k < |list| ::
      && RouteIndex(|outputs|, list[k]).Some?
      && Resolved(list, outputs).value[k] == outputs[RouteIndex(|outputs|, list[k]).value]
  {
    if list != [] { ResolvedAreOutputs(list[..|list| - 1], outputs, n); }
  }

  lemma JoinedReadsEarlier(block: Block, g: Graph)
    requires |g.ops| < INT_SPAN && Referenced(block, g).Some?
    requires Earlier(g.previous, |g.ops|) && AllEarlier(g.outputs, |g.ops|)
    ensures AllEarlier(Referenced(block, g).value.Reads(), |g.ops|)
  {
  }

  lemma RoutedReadsEarlier(block: Block, g: Graph)
    requires Routed(block, g).Some? && AllEarlier(g.outputs, |g.ops|)
    ensures AllEarlier(Routed(block, g).value.Reads(), |g.ops|)
  {
    hide Stoi, LayerList, Resolved;
    ResolvedAreOutputs(LayerList(block["layers"]).value, g.outputs, |g.ops|);
  }

  lemma CompileReadsEarlier(block: Block, g: Graph, trt: TensorRT)
    requires |g.ops| < INT_SPAN && Compile(block, g, trt).Some?
    requires Earlier(g.previous, |g.ops|) && AllEarlier(g.outputs, |g.ops|)
    ensures AllEarlier(Compile(block, g, trt).value.Reads(), |g.ops|)
  {
    hide Stoi, LayerList, Resolve, Resolved, Convolution, Deconvolution, BatchNorm, Implicit, Referenced, Routed;
    if Referenced(block, g).Some? { JoinedReadsEarlier(block, g); }
    if Routed(block, g).Some? { RoutedReadsEarlier(block, g); }
  }

  lemma AddKeepsEarlier(g: Graph, op: Op)
    requires Earlier(g.previous, |g.ops|) && AllEarlier(g.outputs, |g.ops|) && AllEarlier(op.Reads(), |g.ops|)
    ensures Earlier(Add(g, op).previous, |g.ops| + 1) && AllEarlier(Add(g, op).outputs, |g.ops| + 1)
  {
    assert op.Detection? ==> Earlier(op.Reads()[0], |g.ops|);
    assert op.Route? && |op.inputs| == 1 ==> Earlier(op.Reads()[0], |g.ops|);
  }

  /** Every layer reads the network input and results of strictly earlier blocks only. */
  lemma {:induction false} EdgesGoBack(blocks: seq<Block>, trt: TensorRT, n: nat)
    requires n <= |blocks| < INT_SPAN && After(blocks, trt, n).Some?
    ensures var g := After(blocks, trt, n).value;
      && Earlier(g.previous, n) && AllEarlier(g.outputs, n)
      && forall j | 0 <= j < n :: AllEarlier(g.ops[j].Reads(), j)
  {
    hide Compile, Add, Op.Reads;
    if n > 0 {
      EdgesGoBack(blocks, trt, n - 1);
      var g := After(blocks, trt, n - 1).value;
      var op := Compile(blocks[n - 1], g, trt).value;
      CompileReadsEarlier(blocks[n - 1], g, trt);
      AddKeepsEarlier(g, op);
      AddFacts(g, op);
    }
  }

  // The blocks that have no output.
  function Silent(ops: seq<Op>): nat {
    if ops == [] then 0 else Silent(ops[..|ops| - 1]) + if ops[|ops| - 1].Nothing? then 1 else 0
  }

  lemma {:induction false} OutputsOfOps(blocks: seq<Block>, trt: TensorRT, n: nat)
    requires n <= |blocks| < INT_SPAN && After(blocks, trt, n).Some?
    ensures var g := After(blocks, trt, n).value; |g.outputs| + Silent(g.ops) == n
  {
    hide Compile, Result, Op.Count;
    if n > 0 {
      OutputsOfOps(blocks, trt, n - 1);
      var g := After(blocks, trt, n - 1).value;
      var op := Compile(blocks[n - 1], g, trt).value;
      assert Add(g, op).ops[..n - 1] == g.ops;
    }
  }

  lemma JoinIsResolved(block: Block, g: Graph, trt: TensorRT)
    requires |g.ops| < INT_SPAN && Compile(block, g, trt).Some? && Compile(block, g, trt).value.Join?
    ensures Number(block, "from").Some?
    ensures var k := Resolve(|g.ops|, |g.outputs|, Number(block, "from").value);
      k.Some? && k.value < |g.outputs| && Compile(block, g, trt).value == Join(g.previous, g.outputs[k.value])
  {
    hide Stoi, LayerList, Resolve;
  }

  /** Every accepted `from`, in a file with any number of net and dropout blocks: there is at most one of them
      before the layer; a positive `from` is an index of tensorOutputs, as in a route layer, and a negative one counts
      back from the block before, which is what a route layer does exactly when one such block came before. */
  lemma JoinPicks(blocks: seq<Block>, trt: TensorRT, i: nat) returns (from: int, k: nat)
    requires i < |blocks| < INT_SPAN && After(blocks, trt, i + 1).Some?
    requires After(blocks, trt, i + 1).value.ops[i].Join?
    ensures Number(blocks[i], "from") == Some(from) && After(blocks, trt, i).Some?
    ensures var g := After(blocks, trt, i).value;
      && Silent(g.ops) <= 1 && k < |g.outputs| && k < i - 2
      && After(blocks, trt, i + 1).value.ops[i] == Join(g.previous, g.outputs[k])
      && k == (if from > 0 then from else i - 1 + from)
      && (from > 0 ==> RouteIndex(|g.outputs|, from) == Some(k))
      && (from < 0 ==> (RouteIndex(|g.outputs|, from) == Some(k) <==> Silent(g.ops) == 1))
  {
    hide Compile, Resolve, Stoi;
    var g := After(blocks, trt, i).value;
    JoinIsResolved(blocks[i], g, trt);
    OutputsOfOps(blocks, trt, i);
    from := Number(blocks[i], "from").value;
    ResolveExactly(i, |g.outputs|, from);
    k := Resolve(i, |g.outputs|, from).value;
    if Silent(g.ops) == 1 { SameRuleAsRoute(i, from); }
  }

  predicate IsSilent(block: Block) { "type" in block && block["type"] in {"net", "dropout"} }

  // The usual file: a net block first and no other block without output.
  predicate OneHeader(blocks: seq<Block>) {
    && blocks != [] && IsSilent(blocks[0])
    && forall j | 0 < j < |blocks| :: !IsSilent(blocks[j])
  }

  lemma CompilesNothing(block: Block, g: Graph, trt: TensorRT)
    requires |g.ops| < INT_SPAN && Compile(block, g, trt).Some?
    ensures Compile(block, g, trt).value.Nothing? <==> IsSilent(block)
  {
    hide Stoi, LayerList, Resolve;
  }

  /** In the usual file output k is the result of block k + 1, for all blocks so far. */
  lemma {:induction false} OutputsFollowHeader(blocks: seq<Block>, trt: TensorRT, n: nat, k: nat)
    requires 0 < n <= |blocks| < INT_SPAN && OneHeader(blocks) && After(blocks, trt, n).Some? && k + 1 < n
    ensures var g := After(blocks, trt, n).value;
      && |g.outputs| == n - 1 && After(blocks, trt, k + 2).Some?
      && g.outputs[k] == After(blocks, trt, k + 2).value.previous
  {
    hide Compile, Result, Silent, IsSilent;
    Prefix(blocks, trt, k + 2, n);
    var g := After(blocks, trt, n - 1).value;
    CompilesNothing(blocks[n - 1], g, trt);
    OneSilent(blocks, trt, n - 1);
    OutputsOfOps(blocks, trt, n - 1);
    if k + 2 < n { OutputsFollowHeader(blocks, trt, n - 1, k); }
  }

  lemma {:induction false} OneSilent(blocks: seq<Block>, trt: TensorRT, n: nat)
    requires 0 < n <= |blocks| < INT_SPAN && OneHeader(blocks) && After(blocks, trt, n).Some?
    ensures Silent(After(blocks, trt, n).value.ops) == 1
  {
    hide Compile;
    var g := After(blocks, trt, n - 1).value;
    CompilesNothing(blocks[n - 1], g, trt);
    AddFacts(g, Compile(blocks[n - 1], g, trt).value);
    assert After(blocks, trt, n).value.ops[..n - 1] == g.ops;
    if n > 1 { OneSilent(blocks, trt, n - 1); }
  }
}
