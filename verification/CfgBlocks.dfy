/** parseConfigBlocks of yolo.cpp: the input size and the detection records of a configuration. std::stof is a
    parameter; None is a failed assert or an exception. */
module CfgBlocks {
  import opened Options
  import opened CfgParser
  import opened CfgNumbers
  import opened LayerRefs
  import opened YoloTensor

  // ---------- std::stoul ----------

  const ULONG_SPAN: int := 0x1_0000_0000_0000_0000

  // A minus sign negates modulo 2^64.
  function Stoul(s: string): (r: Option<nat>)
    ensures r.Some? ==> r.value < ULONG_SPAN
  {
    var t := LeftTrim(s);
    var signed := t != [] && (t[0] == '-' || t[0] == '+');
    var u := if signed then t[1..] else t;
    var digits := u[..DigitsAt(u)];
    var n := Magnitude(digits);
    if digits == [] || n >= ULONG_SPAN then None
    else if signed && t[0] == '-' then Some((ULONG_SPAN - n) % ULONG_SPAN)
    else Some(n)
  }

  lemma StoulOfShow(n: nat)
    requires n < ULONG_SPAN
    ensures Stoul(Show(n)) == Some(n)
  {
    hide Magnitude, DigitsAt, Decimal;
    var d := Decimal(n);
    MagnitudeOfDecimal(n);
    AllDigits(d);
    assert IsDigit(d[0]) && d[..|d|] == d && LeftTrim(d) == d;
  }

  // ---------- The lists of anchors and masks ----------

  function ListAfter<T>(read: seq<T>, s: string, parse: string -> Option<T>): Option<seq<T>>
    decreases |s|
  {
    if s == [] then Some(read)
    else
      var pos := Find(s, ',');
      var next :- parse(Trim(s[..pos]));
      if pos < |s| then ListAfter(read + [next], s[pos + 1..], parse) else Some(read + [next])
  }

  // The string is erased from the front as it is read.
  method ParseList<T>(s: string, parse: string -> Option<T>) returns (list: Option<seq<T>>)
    ensures list == ListAfter([], s, parse)
  {
    hide Find, Trim;
    var read: seq<T> := [];
    var rest := s;
    while rest != []
      invariant ListAfter([], s, parse) == ListAfter(read, rest, parse)
      decreases |rest|
    {
      var npos := Find(rest, ',');
      var next := parse(Trim(rest[..npos]));
      if next.None? { return None; }
      read := read + [next.value];
      if npos == |rest| { return Some(read); }
      rest := rest[npos + 1..];
    }
    list := Some(read);
  }

  function CommaJoined(texts: seq<string>): string {
    if texts == [] then []
    else if |texts| == 1 then texts[0]
    else texts[0] + [','] + CommaJoined(texts[1..])
  }

  /** A list written with commas is read back, whatever reads its elements. */
  lemma {:induction false} ListRoundTrip<T>(read: seq<T>, texts: seq<string>, values: seq<T>,
                                            parse: string -> Option<T>)
    requires |texts| == |values|
    requires forall i | 0 <= i < |texts| :: ',' !in texts[i] && parse(Trim(texts[i])) == Some(values[i])
    requires texts != [] ==> texts[|texts| - 1] != []
    ensures ListAfter(read, CommaJoined(texts), parse) == Some(read + values)
    decreases |texts|
  {
    hide Trim, Find;
    if texts == [] {
      assert read + values == read;
    } else if |texts| == 1 {
      var s := texts[0];
      assert CommaJoined(texts) == s && s[..|s|] == s && read + values == read + [values[0]];
      assert Find(s, ',') == |s|;
    } else {
      var s := CommaJoined(texts);
      FindFirst(texts[0], ',', CommaJoined(texts[1..]));
      assert s[..|texts[0]|] == texts[0] && s[|texts[0]| + 1..] == CommaJoined(texts[1..]);
      ListRoundTrip(read + [values[0]], texts[1..], values[1..], parse);
      assert read + [values[0]] + values[1..] == read + values;
    }
  }

  // ---------- Blocks ----------

  type Stof = string -> Option<real>

  /** The fields that parseConfigBlocks sets; a uint keeps 32 bits of what stoul returns. */
  datatype Config = Config(
    inputC: nat,
    inputH: nat,
    inputW: nat,
    letterBox: nat,
    numClasses: nat,
    newCoords: nat,
    tensors: seq<TensorInfo<real>>)

  const START_CONFIG := Config(0, 0, 0, 0, 0, 0, [])

  function Unsigned(block: Block, key: string): (r: Option<nat>)
    ensures r.Some? ==> r.value < INT_SPAN
  {
    if key !in block then None
    else
      var n :- Stoul(block[key]);
      Some(Uint(n))
  }

  function UnsignedOr(block: Block, key: string, default: nat): Option<nat> {
    if key in block then Unsigned(block, key) else Some(default)
  }

  // A mask is an int.
  function Mask(s: string): Option<int> {
    var n :- Stoul(s);
    Some(Int(Uint(n)))
  }

  function NetFields(block: Block, c: Config): Option<Config> {
    var height :- Unsigned(block, "height");
    var width :- Unsigned(block, "width");
    var channels :- Unsigned(block, "channels");
    var letterBox :- UnsignedOr(block, "letter_box", c.letterBox);
    Some(c.(inputH := height, inputW := width, inputC := channels, letterBox := letterBox))
  }

  function Boxes(block: Block, mask: seq<int>): Option<nat> {
    if "num" !in block then None
    else if mask != [] then Some(Uint(|mask|))
    else
      var num :- Stoul(Trim(block["num"]));
      Some(Uint(num))
  }

  function RecordOf(block: Block, stof: Stof): Option<TensorInfo<real>> {
    if "anchors" !in block then None
    else
      var anchors :- ListAfter([], block["anchors"], stof);
      var mask :- if "mask" in block then ListAfter([], block["mask"], Mask) else Some([]);
      var scaleXY :- if "scale_x_y" in block then stof(block["scale_x_y"]) else Some(1.0);
      var numBBoxes :- Boxes(block, mask);
      Some(TensorInfo("", 0, 0, numBBoxes, scaleXY, anchors, mask))
  }

  predicate IsDetection(block: Block) { "type" in block && block["type"] in {"yolo", "region"} }

  function DetectionFields(block: Block, c: Config, stof: Stof): Option<Config> {
    var numClasses :- Unsigned(block, "classes");
    var newCoords :- UnsignedOr(block, "new_coords", c.newCoords);
    var tensor :- RecordOf(block, stof);
    Some(c.(numClasses := numClasses, newCoords := newCoords, tensors := c.tensors + [tensor]))
  }

  function Configure(block: Block, c: Config, stof: Stof): Option<Config> {
    if "type" !in block then None
    else if block["type"] == "net" then NetFields(block, c)
    else if IsDetection(block) then DetectionFields(block, c, stof)
    else Some(c)
  }

  /** What the blocks say together. */
  function Configured(blocks: seq<Block>, stof: Stof): Option<Config> {
    if blocks == [] then Some(START_CONFIG)
    else
      var c :- Configured(blocks[..|blocks| - 1], stof);
      Configure(blocks[|blocks| - 1], c, stof)
  }

  method ParseMask(block: Block) returns (mask: Option<seq<int>>)
    ensures mask == if "mask" in block then ListAfter([], block["mask"], Mask) else Some([])
  {
    mask := Some([]);
    if "mask" in block { mask := ParseList(block["mask"], Mask); }
  }

  method ParseDetection(block: Block, stof: Stof, c: Config) returns (r: Option<Config>)
    ensures r == DetectionFields(block, c, stof)
  {
    hide ListAfter, Stoul, Trim;
    if "num" !in block || "classes" !in block || "anchors" !in block { return None; }
    var classes := Stoul(block["classes"]);
    if classes.None? { return None; }
    var config := c.(numClasses := Uint(classes.value));
    if "new_coords" in block {
      var newCoords := Stoul(block["new_coords"]);
      if newCoords.None? { return None; }
      config := config.(newCoords := Uint(newCoords.value));
    }
    var anchors := ParseList(block["anchors"], stof);
    if anchors.None? { return None; }
    var mask := ParseMask(block);
    if mask.None? { return None; }
    var scaleXY := Some(1.0);
    if "scale_x_y" in block { scaleXY := stof(block["scale_x_y"]); }
    if scaleXY.None? { return None; }
    var numBBoxes := Boxes(block, mask.value);
    if numBBoxes.None? { return None; }
    var tensor := TensorInfo("", 0, 0, numBBoxes.value, scaleXY.value, anchors.value, mask.value);
    r := Some(config.(tensors := config.tensors + [tensor]));
  }

  method ParseConfigBlocks(blocks: seq<Block>, stof: Stof) returns (r: Option<Config>)
    ensures r == Configured(blocks, stof)
  {
    hide NetFields, DetectionFields;
    var c := START_CONFIG;
    for i := 0 to |blocks|
      invariant Configured(blocks[..i], stof) == Some(c)
    {
      var block := blocks[i];
      assert blocks[..i + 1][..i] == blocks[..i];
      var next := Some(c);
      if "type" !in block {
        next := None;
      } else if block["type"] == "net" {
        next := NetFields(block, c);
      } else if block["type"] == "region" || block["type"] == "yolo" {
        next := ParseDetection(block, stof, c);
      }
      if next.None? {
        StaysUnconfigured(blocks, i + 1, stof);
        return None;
      }
      c := next.value;
    }
    assert blocks[..|blocks|] == blocks;
    r := Some(c);
  }

  lemma {:induction false} StaysUnconfigured(blocks: seq<Block>, i: nat, stof: Stof)
    requires i <= |blocks| && Configured(blocks[..i], stof).None?
    ensures Configured(blocks, stof).None?
  {
    if i == |blocks| {
      assert blocks[..i] == blocks;
    } else {
      assert blocks[..|blocks| - 1][..i] == blocks[..i];
      StaysUnconfigured(blocks[..|blocks| - 1], i, stof);
    }
  }

  // ---------- What a configuration means ----------

  // m_YoloCount.
  function YoloCount(blocks: seq<Block>): nat {
    if blocks == [] then 0
    else YoloCount(blocks[..|blocks| - 1]) + if IsDetection(blocks[|blocks| - 1]) then 1 else 0
  }

  /** One record for each detection block. */
  lemma {:induction false} RecordPerDetection(blocks: seq<Block>, stof: Stof)
    requires Configured(blocks, stof).Some?
    ensures |Configured(blocks, stof).value.tensors| == YoloCount(blocks)
  {
    hide Stoul, ListAfter, RecordOf;
    if blocks != [] { RecordPerDetection(blocks[..|blocks| - 1], stof); }
  }

  predicate IsNet(block: Block) { "type" in block && block["type"] == "net" }

  // The position of the last net block.
  function LastNet(blocks: seq<Block>): (r: int)
    ensures r == -1 || (0 <= r < |blocks| && IsNet(blocks[r]))
    ensures forall i | r < i < |blocks| :: !IsNet(blocks[i])
    ensures r >= -1
  {
    if blocks == [] then -1
    else if IsNet(blocks[|blocks| - 1]) then |blocks| - 1
    else LastNet(blocks[..|blocks| - 1])
  }

  /** The input size is that of the last net block, and zero without one. */
  lemma {:induction false} SizeIsOfLastNet(blocks: seq<Block>, stof: Stof)
    requires Configured(blocks, stof).Some?
    ensures var (c, i) := (Configured(blocks, stof).value, LastNet(blocks));
      (Some(c.inputW), Some(c.inputH), Some(c.inputC))
      == if i == -1 then (Some(0), Some(0), Some(0))
         else (Unsigned(blocks[i], "width"), Unsigned(blocks[i], "height"), Unsigned(blocks[i], "channels"))
  {
    hide Unsigned, RecordOf;
    if blocks != [] { SizeIsOfLastNet(blocks[..|blocks| - 1], stof); }
  }

  /** The number of boxes of a cell is the number of masks, if there are any. */
  lemma BoxesAreMasks(block: Block, stof: Stof)
    requires RecordOf(block, stof).Some? && 0 < |RecordOf(block, stof).value.mask| < INT_SPAN
    ensures RecordOf(block, stof).value.numBBoxes == |RecordOf(block, stof).value.mask|
  {
    hide ListAfter, Stoul, Trim;
  }
}
