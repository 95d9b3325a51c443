/** What parseConfigBlocks makes of any list of blocks, key by key: how numbers and lists are read from any text, which
    blocks are accepted, which block each field comes from, and the record of each detection block. */
module CfgMeaning {
  import opened Options
  import opened CfgParser
  import opened CfgNumbers
  import opened CfgBlocks
  import opened LayerRefs
  import opened YoloTensor

  // ---------- Numbers, from any text ----------

  predicate Digits(d: string) { forall i | 0 <= i < |d| :: IsDigit(d[i]) }

  /** White space, a sign or none, all the digits that follow, and the rest of the text. */
  predicate NumberText(a: string, sign: string, d: string, rest: string) {
    && Blank(a) && sign in {"", "-", "+"} && Digits(d) && (rest == [] || !IsDigit(rest[0]))
    && (sign == "" && d == [] && rest != [] ==> !IsSpace(rest[0]) && rest[0] !in {'-', '+'})
  }

  lemma {:induction false} DigitsThen(d: string, rest: string)
    requires Digits(d) && (rest == [] || !IsDigit(rest[0]))
    ensures DigitsAt(d + rest) == |d|
  {
    if d == [] {
      assert d + rest == rest;
    } else {
      DigitsThen(d[1..], rest);
      assert (d + rest)[1..] == d[1..] + rest;
    }
  }

  lemma {:induction false} TrimmedOff(s: string) returns (a: string)
    ensures Blank(a) && s == a + LeftTrim(s)
  {
    a := [];
    if s != [] && IsSpace(s[0]) {
      a := TrimmedOff(s[1..]);
      a := [s[0]] + a;
    }
  }

  lemma DigitsOff(u: string) returns (d: string, rest: string)
    ensures u == d + rest && Digits(d) && (rest == [] || !IsDigit(rest[0])) && (d == [] ==> rest == u)
  {
    hide DigitsAt;
    d, rest := u[..DigitsAt(u)], u[DigitsAt(u)..];
    AfterDigits(u);
  }

  lemma SignOff(t: string) returns (sign: string, u: string)
    ensures t == sign + u && sign in {"", "-", "+"}
    ensures sign == "" ==> u == t && (t == [] || t[0] !in {'-', '+'})
  {
    sign, u := "", t;
    if t != [] && t[0] in {'-', '+'} {
      sign, u := [t[0]], t[1..];
    }
  }

  /** Every text is such a text. */
  lemma NumberTextOf(s: string) returns (a: string, sign: string, d: string, rest: string)
    ensures s == a + sign + d + rest && NumberText(a, sign, d, rest)
  {
    hide IsSpace, IsDigit, Blank, Digits;
    a := TrimmedOff(s);
    var t, u := LeftTrim(s), [];
    sign, u := SignOff(t);
    d, rest := DigitsOff(u);
    Grouped(a, sign, d, rest);
  }

  lemma Grouped(a: string, b: string, c: string, d: string)
    ensures a + b + c + d == a + (b + (c + d))
  {
  }

  lemma {:induction false} AfterDigits(u: string)
    ensures DigitsAt(u) < |u| ==> !IsDigit(u[DigitsAt(u)])
  {
    if u != [] && IsDigit(u[0]) { AfterDigits(u[1..]); }
  }

  // The text after its sign.
  lemma AfterSign(sign: string, d: string, rest: string)
    requires NumberText([], sign, d, rest)
    ensures var t := sign + d + rest;
      var signed := t != [] && (t[0] == '-' || t[0] == '+');
      && LeftTrim(t) == t && (if signed then t[1..] else t) == d + rest
      && (signed <==> sign != "") && (d != [] ==> (signed && t[0] == '-' <==> sign == "-"))
  {
    var t := sign + d + rest;
    if sign == "" {
      assert t == d + rest;
      assert d != [] ==> IsDigit(d[0]) && t[0] == d[0];
    } else {
      assert t[0] == sign[0] && t[1..] == d + rest;
    }
  }

  lemma SignAndDigits(a: string, sign: string, d: string, rest: string)
    requires NumberText(a, sign, d, rest)
    ensures var t := LeftTrim(a + sign + d + rest);
      var signed := t != [] && (t[0] == '-' || t[0] == '+');
      var u := if signed then t[1..] else t;
      && u[..DigitsAt(u)] == d
      && (d != [] ==> (signed && t[0] == '-' <==> sign == "-"))
  {
    hide DigitsAt, LeftTrim;
    var t := sign + d + rest;
    assert a + sign + d + rest == a + t;
    LeftTrimDrops(a, t);
    AfterSign(sign, d, rest);
    DigitsThen(d, rest);
    assert (d + rest)[..|d|] == d;
  }

  /** std::stoi: white space and what follows the digits is ignored; without a digit or out of range it throws. */
  lemma StoiExactly(a: string, sign: string, d: string, rest: string)
    requires NumberText(a, sign, d, rest)
    ensures var n := if sign == "-" then -(Magnitude(d) as int) else Magnitude(d);
      Stoi(a + sign + d + rest)
      == if d != [] && -0x8000_0000 <= n <= 0x7fff_ffff then Some(n) else None
  {
    hide Magnitude, DigitsAt, LeftTrim;
    SignAndDigits(a, sign, d, rest);
  }

  /** std::stoul: the same, where a minus sign counts down from 2^64. */
  lemma StoulExactly(a: string, sign: string, d: string, rest: string)
    requires NumberText(a, sign, d, rest)
    ensures var n := Magnitude(d);
      Stoul(a + sign + d + rest)
      == if d == [] || n > 0xffff_ffff_ffff_ffff then None
         else if sign == "-" && n > 0 then Some(0x1_0000_0000_0000_0000 - n)
         else Some(n)
  {
    hide Magnitude, DigitsAt, LeftTrim;
    SignAndDigits(a, sign, d, rest);
  }

  /** Digits are decimal: leading zeros are ignored, and otherwise they are those of to_string. */
  lemma {:induction false} LeadingZero(d: string)
    requires Digits(d)
    ensures Magnitude("0" + d) == Magnitude(d)
  {
    var s := "0" + d;
    if d == [] {
      assert s[..|s| - 1] == [];
    } else {
      LeadingZero(d[..|d| - 1]);
      assert s[..|s| - 1] == "0" + d[..|d| - 1];
    }
  }

  /** Each further digit is worth its value, after ten times what was read; to_string writes the same digits. */
  lemma DigitsAreDecimal(d: string, c: char)
    requires Digits(d) && IsDigit(c)
    ensures Digits(d + [c]) && Magnitude([]) == 0
    ensures Magnitude(d + [c]) == 10 * Magnitude(d) + (c as int - '0' as int)
    ensures Magnitude(Decimal(Magnitude(d))) == Magnitude(d)
  {
    hide Decimal;
    MagnitudeOfDecimal(Magnitude(d));
    assert (d + [c])[..|d + [c]| - 1] == d;
  }

  // ---------- Lists, from any text ----------

  /** Every text is texts without commas, joined by commas. */
  lemma {:induction false} Pieces(s: string) returns (texts: seq<string>)
    ensures CommaJoined(texts) == s && texts != [] && forall t | t in texts :: ',' !in t
    decreases |s|
  {
    var pos := Find(s, ',');
    if pos == |s| {
      assert s[..pos] == s;
      texts := [s];
    } else {
      texts := Pieces(s[pos + 1..]);
      var rest := texts;
      texts := [s[..pos]] + rest;
      assert texts[1..] == rest && s == s[..pos] + [','] + s[pos + 1..];
    }
  }

  /** r holds what was read before and then the values of the texts p, if each of them parses. */
  ghost predicate AreRead<T>(r: Option<seq<T>>, read: seq<T>, p: seq<string>, parse: string -> Option<T>) {
    && (r.Some? <==> forall i | 0 <= i < |p| :: parse(Trim(p[i])).Some?)
    && (r.Some? ==> |r.value| == |read| + |p| && r.value[..|read|] == read)
    && (r.Some? ==> forall i | 0 <= i < |p| :: Some(r.value[|read| + i]) == parse(Trim(p[i])))
  }

  lemma NoneIsRead<T>(read: seq<T>, parse: string -> Option<T>)
    ensures AreRead(Some(read), read, [], parse)
  {
  }

  lemma OneIsRead<T>(read: seq<T>, s: string, parse: string -> Option<T>)
    ensures AreRead(if parse(Trim(s)).Some? then Some(read + [parse(Trim(s)).value]) else None, read, [s], parse)
  {
    hide Trim;
    var p := [s];
    assert p[0] == s;
  }

  lemma OneMoreIsRead<T>(r: Option<seq<T>>, read: seq<T>, x: T, p: seq<string>, parse: string -> Option<T>)
    requires p != [] && parse(Trim(p[0])) == Some(x) && AreRead(r, read + [x], p[1..], parse)
    ensures AreRead(r, read, p, parse)
  {
    hide Trim;
    assert forall i | 0 < i < |p| :: p[i] == p[1..][i - 1];
    if r.Some? {
      assert r.value[..|read|] == r.value[..|read| + 1][..|read|] == read;
      assert r.value[|read|] == r.value[..|read| + 1][|read|] == x;
      forall i | 0 < i < |p| ensures Some(r.value[|read| + i]) == parse(Trim(p[i])) {
        assert r.value[|read| + i] == r.value[|read + [x]| + (i - 1)];
      }
    } else {
      var i :| 0 <= i < |p[1..]| && parse(Trim(p[1..][i])).None?;
      assert p[1..][i] == p[i + 1];
    }
  }

  lemma FirstFails<T>(read: seq<T>, p: seq<string>, parse: string -> Option<T>)
    requires p != [] && parse(Trim(p[0])).None?
    ensures AreRead(None, read, p, parse)
  {
  }

  lemma JoinedHead(texts: seq<string>)
    requires |texts| > 1 && ',' !in texts[0]
    ensures var s := CommaJoined(texts);
      && s != [] && Find(s, ',') == |texts[0]| < |s|
      && s[..|texts[0]|] == texts[0] && s[|texts[0]| + 1..] == CommaJoined(texts[1..])
  {
    hide Find;
    var s := CommaJoined(texts);
    FindFirst(texts[0], ',', CommaJoined(texts[1..]));
    assert s == texts[0] + [','] + CommaJoined(texts[1..]);
  }

  lemma OneJoined(s: string)
    requires ',' !in s
    ensures CommaJoined([s]) == s && Find(s, ',') == |s| && s[..|s|] == s
  {
  }

  // The steps of the two readers over joined texts.
  lemma ListSteps<T>(read: seq<T>, texts: seq<string>, parse: string -> Option<T>)
    requires texts != [] && ',' !in texts[0]
    ensures var (r, next) := (ListAfter(read, CommaJoined(texts), parse), parse(Trim(texts[0])));
      if texts == [[]] then r == Some(read)
      else if next.None? then r == None
      else if |texts| == 1 then r == Some(read + [next.value])
      else r == ListAfter(read + [next.value], CommaJoined(texts[1..]), parse)
  {
    hide Trim, Find, CommaJoined;
    if |texts| == 1 {
      assert texts == [texts[0]];
      OneJoined(texts[0]);
    } else {
      JoinedHead(texts);
    }
  }

  lemma LayerSteps(read: seq<int>, texts: seq<string>)
    requires texts != [] && ',' !in texts[0]
    ensures var (r, next) := (LayersAfter(read, CommaJoined(texts)), Stoi(Trim(texts[0])));
      if |texts| == 1 && Trim(texts[0]) == [] then r == Some(read)
      else if next.None? then r == None
      else if |texts| == 1 then r == Some(read + [next.value])
      else r == LayersAfter(read + [next.value], CommaJoined(texts[1..]))
  {
    hide Trim, Find, CommaJoined, Stoi;
    if |texts| == 1 {
      assert texts == [texts[0]];
      OneJoined(texts[0]);
    } else {
      JoinedHead(texts);
    }
  }

  // The texts that are read: a comma at the end is followed by nothing.
  function ReadPieces(texts: seq<string>): (p: seq<string>)
    requires texts != []
    ensures |texts| > 1 ==> p != [] && p[0] == texts[0] && p[1..] == ReadPieces(texts[1..])
  {
    if texts[|texts| - 1] == [] then texts[..|texts| - 1] else texts
  }

  /** A list is read exactly when each text between commas parses, and it then has their values in order. */
  lemma {:induction false} ListExactly<T>(read: seq<T>, texts: seq<string>, parse: string -> Option<T>)
    requires texts != [] && forall t | t in texts :: ',' !in t
    ensures AreRead(ListAfter(read, CommaJoined(texts), parse), read, ReadPieces(texts), parse)
    decreases |texts|
  {
    hide Trim, AreRead, ListAfter, CommaJoined;
    assert texts[0] in texts;
    ListSteps(read, texts, parse);
    var (next, p) := (parse(Trim(texts[0])), ReadPieces(texts));
    if |texts| == 1 {
      assert texts == [texts[0]];
      NoneIsRead(read, parse);
      OneIsRead(read, texts[0], parse);
    } else if next.Some? {
      ListExactly(read + [next.value], texts[1..], parse);
      OneMoreIsRead(ListAfter(read, CommaJoined(texts), parse), read, next.value, p, parse);
    } else {
      FirstFails(read, p, parse);
    }
  }

  // The texts that a route layer reads: white space after the last comma is no number.
  function RoutePieces(texts: seq<string>): (p: seq<string>)
    requires texts != []
    ensures |texts| > 1 ==> p != [] && p[0] == texts[0] && p[1..] == RoutePieces(texts[1..])
  {
    if Trim(texts[|texts| - 1]) == [] then texts[..|texts| - 1] else texts
  }

  /** The list of a route layer is read in the same way, but for white space after the last comma. */
  lemma {:induction false} LayersExactly(read: seq<int>, texts: seq<string>)
    requires texts != [] && forall t | t in texts :: ',' !in t
    ensures AreRead(LayersAfter(read, CommaJoined(texts)), read, RoutePieces(texts), Stoi)
    decreases |texts|
  {
    hide Trim, AreRead, LayersAfter, CommaJoined, Stoi;
    assert texts[0] in texts;
    LayerSteps(read, texts);
    var (next, p) := (Stoi(Trim(texts[0])), RoutePieces(texts));
    if |texts| == 1 {
      assert texts == [texts[0]];
      NoneIsRead(read, Stoi);
      OneIsRead(read, texts[0], Stoi);
    } else if next.Some? {
      LayersExactly(read + [next.value], texts[1..]);
      OneMoreIsRead(LayersAfter(read, CommaJoined(texts)), read, next.value, p, Stoi);
    } else {
      FirstFails(read, p, Stoi);
    }
  }

  // ---------- Which blocks are accepted ----------

  predicate IsUnsigned(block: Block, key: string) { key in block && Stoul(block[key]).Some? }

  predicate UnsignedIfAny(block: Block, key: string) { key in block ==> IsUnsigned(block, key) }

  /** What parseConfigBlocks demands of one block. */
  predicate WellFormed(block: Block, stof: Stof) {
    && "type" in block
    && (block["type"] == "net" ==>
          && IsUnsigned(block, "height") && IsUnsigned(block, "width") && IsUnsigned(block, "channels")
          && UnsignedIfAny(block, "letter_box"))
    && (block["type"] in {"yolo", "region"} ==>
          && "num" in block && IsUnsigned(block, "classes") && UnsignedIfAny(block, "new_coords")
          && "anchors" in block && ListAfter([], block["anchors"], stof).Some?
          && ("mask" in block ==> ListAfter([], block["mask"], Mask).Some?)
          && ("scale_x_y" in block ==> stof(block["scale_x_y"]).Some?)
          && (!HasMasks(block) ==> Stoul(Trim(block["num"])).Some?))
  }

  // The text of the mask is not empty.
  predicate HasMasks(block: Block) { "mask" in block && block["mask"] != [] }

  lemma {:induction false} ListGrows<T>(read: seq<T>, s: string, parse: string -> Option<T>)
    requires ListAfter(read, s, parse).Some?
    ensures |ListAfter(read, s, parse).value| >= |read| + if s == [] then 0 else 1
    ensures s == [] ==> ListAfter(read, s, parse).value == read
    decreases |s|
  {
    hide Trim;
    if s != [] {
      var pos := Find(s, ',');
      if pos < |s| { ListGrows(read + [parse(Trim(s[..pos])).value], s[pos + 1..], parse); }
    }
  }

  lemma RecordAccepted(block: Block, stof: Stof)
    requires "type" in block && block["type"] in {"yolo", "region"}
    ensures WellFormed(block, stof) <==>
      IsUnsigned(block, "classes") && UnsignedIfAny(block, "new_coords") && RecordOf(block, stof).Some?
  {
    hide ListAfter, Stoul, Trim;
    if "mask" in block && ListAfter([], block["mask"], Mask).Some? { ListGrows([], block["mask"], Mask); }
  }

  lemma ConfigureAccepts(block: Block, c: Config, stof: Stof)
    ensures Configure(block, c, stof).Some? <==> WellFormed(block, stof)
  {
    hide ListAfter, Stoul, Trim, RecordOf;
    if "type" in block && block["type"] in {"yolo", "region"} {
      hide WellFormed;
      RecordAccepted(block, stof);
    }
  }

  /** A file is accepted exactly when each of its blocks is well formed. */
  lemma {:induction false} AcceptedExactly(blocks: seq<Block>, stof: Stof)
    ensures Configured(blocks, stof).Some? <==> forall i | 0 <= i < |blocks| :: WellFormed(blocks[i], stof)
  {
    hide WellFormed, Configure;
    if blocks != [] {
      AcceptedExactly(blocks[..|blocks| - 1], stof);
      if Configured(blocks[..|blocks| - 1], stof).Some? {
        ConfigureAccepts(blocks[|blocks| - 1], Configured(blocks[..|blocks| - 1], stof).value, stof);
      }
    }
  }

  // ---------- Which block a number comes from ----------

  predicate Has(block: Block, kinds: set<string>, key: string) {
    "type" in block && block["type"] in kinds && key in block
  }

  // The number of a key in 32 bits.
  predicate NumberIs(block: Block, key: string, n: nat) {
    key in block && Stoul(block[key]).Some? && n == Stoul(block[key]).value % 0x1_0000_0000
  }

  /** n is the number of the last of the blocks of these kinds that have the key, and zero without one. */
  ghost predicate OfLast(blocks: seq<Block>, kinds: set<string>, key: string, n: nat) {
    if exists i | 0 <= i < |blocks| :: Has(blocks[i], kinds, key) then
      exists i | 0 <= i < |blocks| :: IsLast(blocks, kinds, key, i) && NumberIs(blocks[i], key, n)
    else n == 0
  }

  ghost predicate IsLast(blocks: seq<Block>, kinds: set<string>, key: string, i: nat)
    requires i < |blocks|
  {
    Has(blocks[i], kinds, key) && forall k | i < k < |blocks| :: !Has(blocks[k], kinds, key)
  }

  lemma OfLastStep(blocks: seq<Block>, kinds: set<string>, key: string, before: nat, n: nat)
    requires blocks != [] && OfLast(blocks[..|blocks| - 1], kinds, key, before)
    requires var b := blocks[|blocks| - 1]; if Has(b, kinds, key) then NumberIs(b, key, n) else n == before
    ensures OfLast(blocks, kinds, key, n)
  {
    hide Has, NumberIs;
    var (init, l) := (blocks[..|blocks| - 1], |blocks| - 1);
    if Has(blocks[l], kinds, key) {
      assert IsLast(blocks, kinds, key, l);
    } else if i :| 0 <= i < |init| && Has(init[i], kinds, key) {
      assert Has(blocks[i], kinds, key);
      var j :| 0 <= j < |init| && IsLast(init, kinds, key, j) && NumberIs(init[j], key, before);
      LastStays(blocks, kinds, key, j);
    } else {
      assert forall i | 0 <= i < l :: blocks[i] == init[i];
    }
  }

  lemma LastStays(blocks: seq<Block>, kinds: set<string>, key: string, j: nat)
    requires j < |blocks| - 1 && IsLast(blocks[..|blocks| - 1], kinds, key, j)
    requires !Has(blocks[|blocks| - 1], kinds, key)
    ensures IsLast(blocks, kinds, key, j)
  {
    hide Has;
    var init := blocks[..|blocks| - 1];
    forall k | j < k < |blocks| ensures !Has(blocks[k], kinds, key) {
      if k < |init| { assert init[k] == blocks[k]; }
    }
  }

  lemma OfLastOnce(blocks: seq<Block>, kinds: set<string>, key: string, m: nat, n: nat)
    requires OfLast(blocks, kinds, key, m) && OfLast(blocks, kinds, key, n)
    ensures m == n
  {
    hide Has;
    if exists i | 0 <= i < |blocks| :: Has(blocks[i], kinds, key) {
      var i :| 0 <= i < |blocks| && IsLast(blocks, kinds, key, i) && NumberIs(blocks[i], key, m);
      var j :| 0 <= j < |blocks| && IsLast(blocks, kinds, key, j) && NumberIs(blocks[j], key, n);
      assert i == j;
    }
  }

  // The six numbers.
  ghost predicate NumbersOfLast(blocks: seq<Block>, c: Config) {
    && OfLast(blocks, {"net"}, "height", c.inputH)
    && OfLast(blocks, {"net"}, "width", c.inputW)
    && OfLast(blocks, {"net"}, "channels", c.inputC)
    && OfLast(blocks, {"net"}, "letter_box", c.letterBox)
    && OfLast(blocks, {"yolo", "region"}, "classes", c.numClasses)
    && OfLast(blocks, {"yolo", "region"}, "new_coords", c.newCoords)
  }

  // The numbers of one block.
  predicate Updates(block: Block, kinds: set<string>, key: string, before: nat, n: nat) {
    if Has(block, kinds, key) then NumberIs(block, key, n) else n == before
  }

  lemma ConfigureUpdates(block: Block, c: Config, stof: Stof)
    requires Configure(block, c, stof).Some?
    ensures var d := Configure(block, c, stof).value;
      && Updates(block, {"net"}, "height", c.inputH, d.inputH)
      && Updates(block, {"net"}, "width", c.inputW, d.inputW)
      && Updates(block, {"net"}, "channels", c.inputC, d.inputC)
      && Updates(block, {"net"}, "letter_box", c.letterBox, d.letterBox)
      && Updates(block, {"yolo", "region"}, "classes", c.numClasses, d.numClasses)
      && Updates(block, {"yolo", "region"}, "new_coords", c.newCoords, d.newCoords)
  {
    hide Stoul, RecordOf;
  }

  /** Height, width, channels and letter_box are those of the last net block that has the key, classes and new_coords
      those of the last detection block that has it; zero without one. */
  lemma {:induction false} NumbersAreLast(blocks: seq<Block>, stof: Stof)
    requires Configured(blocks, stof).Some?
    ensures NumbersOfLast(blocks, Configured(blocks, stof).value)
  {
    hide OfLast, Has, NumberIs, Configure;
    if blocks == [] {
      forall kinds, key ensures OfLast([], kinds, key, 0) { NoneIsLast(kinds, key); }
    } else {
      NumbersAreLast(blocks[..|blocks| - 1], stof);
      var (c, d) := (Configured(blocks[..|blocks| - 1], stof).value, Configured(blocks, stof).value);
      ConfigureUpdates(blocks[|blocks| - 1], c, stof);
      OfLastStep(blocks, {"net"}, "height", c.inputH, d.inputH);
      OfLastStep(blocks, {"net"}, "width", c.inputW, d.inputW);
      OfLastStep(blocks, {"net"}, "channels", c.inputC, d.inputC);
      OfLastStep(blocks, {"net"}, "letter_box", c.letterBox, d.letterBox);
      OfLastStep(blocks, {"yolo", "region"}, "classes", c.numClasses, d.numClasses);
      OfLastStep(blocks, {"yolo", "region"}, "new_coords", c.newCoords, d.newCoords);
    }
  }

  lemma NoneIsLast(kinds: set<string>, key: string)
    ensures OfLast([], kinds, key, 0)
  {
  }

  // ---------- The records ----------

  /** The record of a detection block. */
  ghost predicate Describes(t: TensorInfo<real>, block: Block, stof: Stof) {
    && t.blobName == "" && t.gridSizeX == 0 && t.gridSizeY == 0
    && "anchors" in block && ListAfter([], block["anchors"], stof) == Some(t.anchors)
    && (if "mask" in block then ListAfter([], block["mask"], Mask) == Some(t.mask) else t.mask == [])
    && (if "scale_x_y" in block then stof(block["scale_x_y"]) == Some(t.scaleXY) else t.scaleXY == 1.0)
    && "num" in block
    && (t.mask != [] ==> t.numBBoxes == |t.mask| % 0x1_0000_0000)
    && (t.mask == [] ==>
          Stoul(Trim(block["num"])).Some? && t.numBBoxes == Stoul(Trim(block["num"])).value % 0x1_0000_0000)
  }

  lemma RecordDescribes(block: Block, stof: Stof)
    requires RecordOf(block, stof).Some?
    ensures Describes(RecordOf(block, stof).value, block, stof)
  {
    hide ListAfter, Stoul, Trim;
  }

  /** Record k is that of the k-th detection block. */
  lemma {:induction false} RecordsInOrder(blocks: seq<Block>, stof: Stof, i: nat)
    requires Configured(blocks, stof).Some? && i < |blocks| && Has(blocks[i], {"yolo", "region"}, "type")
    ensures var (ts, k) := (Configured(blocks, stof).value.tensors, YoloCount(blocks[..i]));
      k < |ts| && Describes(ts[k], blocks[i], stof)
  {
    hide Describes, Unsigned, RecordOf;
    var init := blocks[..|blocks| - 1];
    if i < |blocks| - 1 {
      RecordsInOrder(init, stof, i);
      assert init[..i] == blocks[..i];
    } else {
      RecordPerDetection(init, stof);
      RecordDescribes(blocks[i], stof);
    }
  }

  /** A mask is the number of its text as a signed int. */
  lemma MaskIs(s: string)
    requires Stoul(s).Some?
    ensures Mask(s).Some? && -0x8000_0000 <= Mask(s).value <= 0x7fff_ffff
    ensures exists q: int :: Congruent(Stoul(s).value, Mask(s).value, q)
  {
    hide Stoul;
    var (n, m) := (Stoul(s).value, Mask(s).value);
    assert Congruent(n, m, if n % 0x1_0000_0000 == m then n / 0x1_0000_0000 else n / 0x1_0000_0000 + 1);
  }

  predicate Congruent(n: int, m: int, q: int) { n == m + q * 0x1_0000_0000 }
}
