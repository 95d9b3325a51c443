/** yoloPlugins.cpp: the plugin written to and read back from the engine file. A length-prefixed nested
    record in little-endian words, as the processors that run it store them. */
module PluginCodec {
  import opened YoloTensor
  import opened Options

  // ---------- Little-endian integers ----------

  const WORD_SPAN: nat := 0x1_0000_0000

  type Byte = n: nat | n < 0x100
  type Word = n: nat | n < WORD_SPAN
  type Long = n: nat | n < WORD_SPAN * WORD_SPAN

  function LittleEndian(n: nat, width: nat): (bs: seq<Byte>)
    ensures |bs| == width
  {
    if width == 0 then [] else [n % 0x100] + LittleEndian(n / 0x100, width - 1)
  }

  function Value(bs: seq<Byte>): nat { if bs == [] then 0 else bs[0] + 0x100 * Value(bs[1..]) }

  function Span(width: nat): (n: nat)
    ensures n > 0
  {
    if width == 0 then 1 else 0x100 * Span(width - 1)
  }

  lemma {:induction false} ValueOfBytes(n: nat, width: nat)
    requires n < Span(width)
    ensures Value(LittleEndian(n, width)) == n
  {
    if width > 0 {
      assert LittleEndian(n, width)[1..] == LittleEndian(n / 0x100, width - 1);
      ValueOfBytes(n / 0x100, width - 1);
    }
  }

  lemma {:induction false} BytesOfValue(bs: seq<Byte>)
    ensures Value(bs) < Span(|bs|) && LittleEndian(Value(bs), |bs|) == bs
  {
    if bs != [] {
      BytesOfValue(bs[1..]);
    }
  }

  lemma Spans()
    ensures Span(4) == WORD_SPAN && Span(8) == WORD_SPAN * WORD_SPAN
  {
  }

  function WordBytes(n: Word): (bs: seq<Byte>)
    ensures |bs| == 4
  {
    LittleEndian(n, 4)
  }

  function LongBytes(n: Long): (bs: seq<Byte>)
    ensures |bs| == 8
  {
    LittleEndian(n, 8)
  }

  function WordOf(bs: seq<Byte>): Word
    requires |bs| == 4
  {
    (BytesOfValue(bs); Spans(); Value(bs))
  }

  function LongOf(bs: seq<Byte>): Long
    requires |bs| == 8
  {
    (BytesOfValue(bs); Spans(); Value(bs))
  }

  lemma WordRoundTrip(n: Word, bs: seq<Byte>)
    requires |bs| == 4
    ensures WordOf(WordBytes(n)) == n && WordBytes(WordOf(bs)) == bs
  {
    Spans();
    ValueOfBytes(n, 4);
    BytesOfValue(bs);
  }

  lemma LongRoundTrip(n: Long, bs: seq<Byte>)
    requires |bs| == 8
    ensures LongOf(LongBytes(n)) == n && LongBytes(LongOf(bs)) == bs
  {
    Spans();
    ValueOfBytes(n, 8);
    BytesOfValue(bs);
  }

  // An int in two's complement.
  function Unsigned(i: int): Word
    requires -(WORD_SPAN / 2) <= i < WORD_SPAN / 2
  {
    if i < 0 then i + WORD_SPAN else i
  }

  function Signed(n: Word): (i: int)
    ensures -(WORD_SPAN / 2) <= i < WORD_SPAN / 2 && Unsigned(i) == n
  {
    if n < WORD_SPAN / 2 then n else n - WORD_SPAN
  }

  // ---------- The record ----------

  type StoredInfo = TensorInfo<Word>

  datatype StoredPlugin = StoredPlugin(
    netWidth: Word,
    netHeight: Word,
    numClasses: Word,
    newCoords: Word,
    outputSize: Long,
    tensors: seq<StoredInfo>)

  // The values the C++ types of the fields can hold; a float is its bit pattern.
  predicate Typed(t: StoredInfo) {
    && t.gridSizeX < WORD_SPAN && t.gridSizeY < WORD_SPAN && t.numBBoxes < WORD_SPAN
    && forall m | m in t.mask :: -(WORD_SPAN / 2) <= m < WORD_SPAN / 2
  }

  predicate LayerTyped(l: StoredPlugin) { forall t | t in l.tensors :: Typed(t) }

  // A list size stored in an unsigned int.
  function Prefixed<T>(s: seq<T>): (p: seq<T>)
    ensures p <= s && |p| < WORD_SPAN && (p == s <==> |s| < WORD_SPAN)
  {
    s[..|s| % WORD_SPAN]
  }

  // What survives a trip through the file.
  function StoredTensor(t: StoredInfo): StoredInfo
    requires Typed(t)
  {
    t.(blobName := "", anchors := Prefixed(t.anchors), mask := Prefixed(t.mask))
  }

  function StoredTensors(ts: seq<StoredInfo>): (r: seq<StoredInfo>)
    requires forall t | t in ts :: Typed(t)
    ensures |r| == |ts| && forall i | 0 <= i < |ts| :: r[i] == StoredTensor(ts[i])
  {
    if ts == [] then [] else StoredTensors(ts[..|ts| - 1]) + [StoredTensor(ts[|ts| - 1])]
  }

  function Stored(l: StoredPlugin): StoredPlugin
    requires LayerTyped(l)
  {
    l.(tensors := StoredTensors(Prefixed(l.tensors)))
  }

  // ---------- Writing ----------

  function WordsBytes(ws: seq<Word>): (bs: seq<Byte>)
    ensures |bs| == 4 * |ws|
  {
    if ws == [] then [] else WordsBytes(ws[..|ws| - 1]) + WordBytes(ws[|ws| - 1])
  }

  function ListBytes(ws: seq<Word>): seq<Byte> { WordBytes(|ws| % WORD_SPAN) + WordsBytes(Prefixed(ws)) }

  function MaskWords(mask: seq<int>): (ws: seq<Word>)
    requires forall m | m in mask :: -(WORD_SPAN / 2) <= m < WORD_SPAN / 2
    ensures |ws| == |mask|
  {
    seq(|mask|, i requires 0 <= i < |mask| => assert mask[i] in mask; Unsigned(mask[i]))
  }

  function MaskOf(ws: seq<Word>): (mask: seq<int>)
    ensures |mask| == |ws| && forall m | m in mask :: -(WORD_SPAN / 2) <= m < WORD_SPAN / 2
  {
    seq(|ws|, i requires 0 <= i < |ws| => Signed(ws[i]))
  }

  function GridBytes(t: StoredInfo): (bs: seq<Byte>)
    requires Typed(t)
    ensures |bs| == 16
  {
    WordBytes(t.gridSizeX) + WordBytes(t.gridSizeY) + WordBytes(t.numBBoxes) + WordBytes(t.scaleXY)
  }

  function TensorBytes(t: StoredInfo): seq<Byte>
    requires Typed(t)
  {
    GridBytes(t) + ListBytes(t.anchors) + ListBytes(MaskWords(t.mask))
  }

  function TensorsBytes(ts: seq<StoredInfo>): seq<Byte>
    requires forall t | t in ts :: Typed(t)
  {
    if ts == [] then [] else TensorsBytes(ts[..|ts| - 1]) + TensorBytes(ts[|ts| - 1])
  }

  function HeaderBytes(l: StoredPlugin): (bs: seq<Byte>)
    ensures |bs| == 28
  {
    WordBytes(l.netWidth) + WordBytes(l.netHeight) + WordBytes(l.numClasses) + WordBytes(l.newCoords)
    + LongBytes(l.outputSize) + WordBytes(|l.tensors| % WORD_SPAN)
  }

  function LayerBytes(l: StoredPlugin): seq<Byte>
    requires LayerTyped(l)
  {
    HeaderBytes(l) + TensorsBytes(Prefixed(l.tensors))
  }

  // ---------- Reading: the value and the bytes that follow it ----------

  type Read<T> = Option<(T, seq<Byte>)>

  function ReadWord(s: seq<Byte>): Read<Word> { if |s| < 4 then None else Some((WordOf(s[..4]), s[4..])) }

  function ReadLong(s: seq<Byte>): Read<Long> { if |s| < 8 then None else Some((LongOf(s[..8]), s[8..])) }

  function ReadWords(s: seq<Byte>, n: nat): (r: Read<seq<Word>>)
    ensures r.Some? ==> |r.value.0| == n
  {
    if n == 0 then Some(([], s)) else
      var init :- ReadWords(s, n - 1);
      var last :- ReadWord(init.1);
      Some((init.0 + [last.0], last.1))
  }

  function ReadList(s: seq<Byte>): (r: Read<seq<Word>>)
    ensures r.Some? ==> |r.value.0| < WORD_SPAN
  {
    var n :- ReadWord(s);
    ReadWords(n.1, n.0)
  }

  function ReadTensor(s: seq<Byte>): (r: Read<StoredInfo>)
    ensures r.Some? ==> Typed(r.value.0) && StoredTensor(r.value.0) == r.value.0
  {
    var gridSizeX :- ReadWord(s);
    var gridSizeY :- ReadWord(gridSizeX.1);
    var numBBoxes :- ReadWord(gridSizeY.1);
    var scaleXY :- ReadWord(numBBoxes.1);
    var anchors :- ReadList(scaleXY.1);
    var mask :- ReadList(anchors.1);
    Some((TensorInfo("", gridSizeX.0, gridSizeY.0, numBBoxes.0, scaleXY.0, anchors.0, MaskOf(mask.0)), mask.1))
  }

  function ReadTensors(s: seq<Byte>, n: nat): (r: Read<seq<StoredInfo>>)
    ensures r.Some? ==> |r.value.0| == n && forall t | t in r.value.0 :: Typed(t) && StoredTensor(t) == t
  {
    if n == 0 then Some(([], s)) else
      var init :- ReadTensors(s, n - 1);
      var last :- ReadTensor(init.1);
      Some((init.0 + [last.0], last.1))
  }

  function ReadLayer(s: seq<Byte>): (r: Read<StoredPlugin>)
    ensures r.Some? ==> LayerTyped(r.value.0) && |r.value.0.tensors| < WORD_SPAN
  {
    var netWidth :- ReadWord(s);
    var netHeight :- ReadWord(netWidth.1);
    var numClasses :- ReadWord(netHeight.1);
    var newCoords :- ReadWord(numClasses.1);
    var outputSize :- ReadLong(newCoords.1);
    var n :- ReadWord(outputSize.1);
    var tensors :- ReadTensors(n.1, n.0);
    Some((StoredPlugin(netWidth.0, netHeight.0, numClasses.0, newCoords.0, outputSize.0, tensors.0), tensors.1))
  }

  // ---------- Reading undoes writing ----------

  lemma ReadWordOf(n: Word, tail: seq<Byte>)
    ensures ReadWord(WordBytes(n) + tail) == Some((n, tail))
  {
    WordRoundTrip(n, WordBytes(n));
    assert (WordBytes(n) + tail)[..4] == WordBytes(n);
  }

  lemma ReadLongOf(n: Long, tail: seq<Byte>)
    ensures ReadLong(LongBytes(n) + tail) == Some((n, tail))
  {
    LongRoundTrip(n, LongBytes(n));
    assert (LongBytes(n) + tail)[..8] == LongBytes(n);
  }

  lemma {:induction false} ReadWordsOf(ws: seq<Word>, tail: seq<Byte>)
    ensures ReadWords(WordsBytes(ws) + tail, |ws|) == Some((ws, tail))
  {
    hide WordBytes, ReadWord;
    if ws != [] {
      var init, last := ws[..|ws| - 1], ws[|ws| - 1];
      ReadWordsOf(init, WordBytes(last) + tail);
      ReadWordOf(last, tail);
      assert WordsBytes(ws) + tail == WordsBytes(init) + (WordBytes(last) + tail);
      assert init + [last] == ws;
    } else {
      assert WordsBytes(ws) + tail == tail;
    }
  }

  lemma ReadListOf(ws: seq<Word>, tail: seq<Byte>)
    ensures ReadList(ListBytes(ws) + tail) == Some((Prefixed(ws), tail))
  {
    hide WordBytes, ReadWord, WordsBytes, ReadWords;
    var n := |ws| % WORD_SPAN;
    ReadWordOf(n, WordsBytes(Prefixed(ws)) + tail);
    ReadWordsOf(Prefixed(ws), tail);
    assert ListBytes(ws) + tail == WordBytes(n) + (WordsBytes(Prefixed(ws)) + tail);
  }

  lemma MaskRoundTrip(mask: seq<int>)
    requires forall m | m in mask :: -(WORD_SPAN / 2) <= m < WORD_SPAN / 2
    ensures MaskOf(Prefixed(MaskWords(mask))) == Prefixed(mask)
  {
    forall i | 0 <= i < |Prefixed(mask)| ensures MaskOf(Prefixed(MaskWords(mask)))[i] == Prefixed(mask)[i] {
      assert mask[i] in mask && MaskWords(mask)[i] == Unsigned(mask[i]);
    }
  }

  lemma ReadTensorOf(t: StoredInfo, tail: seq<Byte>)
    requires Typed(t)
    ensures ReadTensor(TensorBytes(t) + tail) == Some((StoredTensor(t), tail))
  {
    hide WordBytes, ReadWord, ListBytes, ReadList, MaskWords, MaskOf, Prefixed;
    var lists := ListBytes(t.anchors) + (ListBytes(MaskWords(t.mask)) + tail);
    var scale := WordBytes(t.scaleXY) + lists;
    var boxes := WordBytes(t.numBBoxes) + scale;
    var rows := WordBytes(t.gridSizeY) + boxes;
    assert TensorBytes(t) + tail == WordBytes(t.gridSizeX) + rows;
    ReadWordOf(t.gridSizeX, rows);
    ReadWordOf(t.gridSizeY, boxes);
    ReadWordOf(t.numBBoxes, scale);
    ReadWordOf(t.scaleXY, lists);
    ReadListOf(t.anchors, ListBytes(MaskWords(t.mask)) + tail);
    ReadListOf(MaskWords(t.mask), tail);
    MaskRoundTrip(t.mask);
  }

  lemma {:induction false} ReadTensorsOf(ts: seq<StoredInfo>, tail: seq<Byte>)
    requires forall t | t in ts :: Typed(t)
    ensures ReadTensors(TensorsBytes(ts) + tail, |ts|) == Some((StoredTensors(ts), tail))
  {
    hide TensorBytes, ReadTensor, StoredTensor;
    if ts != [] {
      var init, last := ts[..|ts| - 1], ts[|ts| - 1];
      ReadTensorsOf(init, TensorBytes(last) + tail);
      ReadTensorOf(last, tail);
      assert TensorsBytes(ts) + tail == TensorsBytes(init) + (TensorBytes(last) + tail);
    } else {
      assert TensorsBytes(ts) + tail == tail;
    }
  }

  /** Reading what was written gives the layer back, list sizes modulo 2^32 and without blob names, and leaves
      the bytes after it. */
  lemma RoundTrip(l: StoredPlugin, tail: seq<Byte>)
    requires LayerTyped(l)
    ensures ReadLayer(LayerBytes(l) + tail) == Some((Stored(l), tail))
  {
    hide WordBytes, ReadWord, LongBytes, ReadLong, TensorsBytes, ReadTensors, Prefixed, StoredTensors;
    var n := |l.tensors| % WORD_SPAN;
    var body := TensorsBytes(Prefixed(l.tensors)) + tail;
    var count := WordBytes(n) + body;
    var size := LongBytes(l.outputSize) + count;
    var coords := WordBytes(l.newCoords) + size;
    var classes := WordBytes(l.numClasses) + coords;
    var height := WordBytes(l.netHeight) + classes;
    assert LayerBytes(l) + tail == WordBytes(l.netWidth) + height;
    ReadWordOf(l.netWidth, height);
    ReadWordOf(l.netHeight, classes);
    ReadWordOf(l.numClasses, coords);
    ReadWordOf(l.newCoords, size);
    ReadLongOf(l.outputSize, count);
    ReadWordOf(n, body);
    PrefixedSize(l.tensors);
    ReadTensorsOf(Prefixed(l.tensors), tail);
  }

  lemma PrefixedSize<T>(s: seq<T>)
    ensures |Prefixed(s)| == |s| % WORD_SPAN
  {
  }

  predicate Exact(t: StoredInfo) { t.blobName == "" && |t.anchors| < WORD_SPAN && |t.mask| < WORD_SPAN }

  /** The trip is the identity exactly for layers without blob names whose list sizes fit 32 bits. */
  lemma RoundTripIsExact(l: StoredPlugin)
    requires LayerTyped(l)
    ensures Stored(l) == l <==> |l.tensors| < WORD_SPAN && forall t | t in l.tensors :: Exact(t)
  {
    if |l.tensors| < WORD_SPAN {
      assert Prefixed(l.tensors) == l.tensors;
      if forall t | t in l.tensors :: Exact(t) {
        forall i | 0 <= i < |l.tensors| ensures StoredTensor(l.tensors[i]) == l.tensors[i] {
          assert Exact(l.tensors[i]);
        }
      } else {
        var t :| t in l.tensors && !Exact(t);
        var i :| 0 <= i < |l.tensors| && l.tensors[i] == t;
        assert StoredTensors(l.tensors)[i] == StoredTensor(t) != t;
      }
    }
  }

  // ---------- Writing undoes reading: nothing else is accepted ----------

  lemma WordWasWritten(s: seq<Byte>)
    requires ReadWord(s).Some?
    ensures s == WordBytes(ReadWord(s).value.0) + ReadWord(s).value.1
  {
    WordRoundTrip(0, s[..4]);
  }

  lemma LongWasWritten(s: seq<Byte>)
    requires ReadLong(s).Some?
    ensures s == LongBytes(ReadLong(s).value.0) + ReadLong(s).value.1
  {
    LongRoundTrip(0, s[..8]);
  }

  lemma {:induction false} WordsWereWritten(s: seq<Byte>, n: nat)
    requires ReadWords(s, n).Some?
    ensures s == WordsBytes(ReadWords(s, n).value.0) + ReadWords(s, n).value.1
  {
    hide WordBytes, ReadWord;
    if n > 0 {
      WordsWereWritten(s, n - 1);
      WordWasWritten(ReadWords(s, n - 1).value.1);
      assert ReadWords(s, n).value.0[..n - 1] == ReadWords(s, n - 1).value.0;
    }
  }

  lemma ListWasWritten(s: seq<Byte>)
    requires ReadList(s).Some?
    ensures s == ListBytes(ReadList(s).value.0) + ReadList(s).value.1
  {
    hide WordBytes, ReadWord, WordsBytes, ReadWords;
    WordWasWritten(s);
    WordsWereWritten(ReadWord(s).value.1, ReadWord(s).value.0);
  }

  lemma MaskWordsOf(ws: seq<Word>)
    ensures MaskWords(MaskOf(ws)) == ws
  {
  }

  lemma TensorWasWritten(s: seq<Byte>)
    requires ReadTensor(s).Some?
    ensures s == TensorBytes(ReadTensor(s).value.0) + ReadTensor(s).value.1
  {
    hide WordBytes, ReadWord, ListBytes, ReadList, MaskWords, MaskOf;
    var gridSizeX := ReadWord(s).value;
    var gridSizeY := ReadWord(gridSizeX.1).value;
    var numBBoxes := ReadWord(gridSizeY.1).value;
    var scaleXY := ReadWord(numBBoxes.1).value;
    var anchors := ReadList(scaleXY.1).value;
    WordWasWritten(s);
    WordWasWritten(gridSizeX.1);
    WordWasWritten(gridSizeY.1);
    WordWasWritten(numBBoxes.1);
    ListWasWritten(scaleXY.1);
    ListWasWritten(anchors.1);
    MaskWordsOf(ReadList(anchors.1).value.0);
  }

  lemma {:induction false} TensorsWereWritten(s: seq<Byte>, n: nat)
    requires ReadTensors(s, n).Some?
    ensures s == TensorsBytes(ReadTensors(s, n).value.0) + ReadTensors(s, n).value.1
  {
    hide TensorBytes, ReadTensor, StoredTensor, Typed;
    if n > 0 {
      TensorsWereWritten(s, n - 1);
      TensorWasWritten(ReadTensors(s, n - 1).value.1);
      assert ReadTensors(s, n).value.0[..n - 1] == ReadTensors(s, n - 1).value.0;
    }
  }

  /** Whatever the reader accepts is the written form of the layer it returns. */
  lemma OnlyWrittenIsRead(s: seq<Byte>)
    requires ReadLayer(s).Some?
    ensures s == LayerBytes(ReadLayer(s).value.0) + ReadLayer(s).value.1
  {
    hide WordBytes, ReadWord, LongBytes, ReadLong, TensorsBytes, ReadTensors, Typed, StoredTensor;
    var netWidth := ReadWord(s).value;
    var netHeight := ReadWord(netWidth.1).value;
    var numClasses := ReadWord(netHeight.1).value;
    var newCoords := ReadWord(numClasses.1).value;
    var outputSize := ReadLong(newCoords.1).value;
    var n := ReadWord(outputSize.1).value;
    WordWasWritten(s);
    WordWasWritten(netWidth.1);
    WordWasWritten(netHeight.1);
    WordWasWritten(numClasses.1);
    LongWasWritten(newCoords.1);
    WordWasWritten(outputSize.1);
    TensorsWereWritten(n.1, n.0);
  }

  // ---------- The methods of the plugin ----------

  function TensorSize(t: StoredInfo): nat { 16 + 4 + 4 * |t.anchors| + 4 + 4 * |t.mask| }

  // The bytes getSerializationSize leaves for list elements that serialize does not write.
  function Slack(ts: seq<StoredInfo>): nat {
    if ts == [] then 0
    else
      var t := ts[|ts| - 1];
      Slack(ts[..|ts| - 1]) + 4 * (|t.anchors| - |Prefixed(t.anchors)|) + 4 * (|t.mask| - |Prefixed(t.mask)|)
  }

  lemma {:induction false} NoSlack(ts: seq<StoredInfo>)
    ensures Slack(ts) == 0 <==> forall t | t in ts :: |t.anchors| < WORD_SPAN && |t.mask| < WORD_SPAN
  {
    if ts != [] {
      NoSlack(ts[..|ts| - 1]);
      assert ts == ts[..|ts| - 1] + [ts[|ts| - 1]];
    }
  }

  lemma TensorBytesSize(t: StoredInfo)
    requires Typed(t)
    ensures |TensorBytes(t)| == 24 + 4 * |Prefixed(t.anchors)| + 4 * |Prefixed(t.mask)|
  {
  }

  lemma SizeOfNone()
    ensures TensorsBytes([]) == [] && Slack([]) == 0
  {
  }

  lemma SizeGrows(ts: seq<StoredInfo>, i: nat)
    requires i < |ts| && forall t | t in ts :: Typed(t)
    ensures |TensorsBytes(ts[..i + 1])| + Slack(ts[..i + 1])
         == |TensorsBytes(ts[..i])| + Slack(ts[..i]) + TensorSize(ts[i])
  {
    hide TensorBytes, Typed;
    assert ts[..i + 1][..i] == ts[..i];
    TensorBytesSize(ts[i]);
  }

  /** The announced size is the written size, and more only for lists of 2^32 elements. */
  method SerializationSize(l: StoredPlugin) returns (totalSize: nat)
    requires LayerTyped(l)
    ensures totalSize == |LayerBytes(l)| + Slack(Prefixed(l.tensors))
  {
    hide TensorBytes, TensorsBytes, Slack, Typed;
    totalSize := 4 + 4 + 4 + 4 + 8;
    totalSize := totalSize + 4;
    var ts := Prefixed(l.tensors);
    SizeOfNone();
    for i := 0 to |ts|
      invariant totalSize == 28 + |TensorsBytes(ts[..i])| + Slack(ts[..i])
    {
      totalSize := totalSize + 16;
      totalSize := totalSize + 4 + 4 * |ts[i].anchors|;
      totalSize := totalSize + 4 + 4 * |ts[i].mask|;
      SizeGrows(ts, i);
    }
    assert ts[..|ts|] == ts;
  }

  ghost predicate Unwritten(buffer: array<Byte>, d: nat, was: seq<Byte>)
    reads buffer
  {
    |was| == buffer.Length && forall i | d <= i < buffer.Length :: buffer[i] == was[i]
  }

  // The store of one value through the cursor.
  method Write(buffer: array<Byte>, d: nat, bs: seq<Byte>) returns (d': nat)
    requires d + |bs| <= buffer.Length
    modifies buffer
    ensures d' == d + |bs|
    ensures buffer[..d'] == old(buffer[..d]) + bs && Unwritten(buffer, d', old(buffer[..]))
  {
    forall i | 0 <= i < |bs| { buffer[d + i] := bs[i]; }
    d' := d + |bs|;
  }

  method WriteList(buffer: array<Byte>, d: nat, ws: seq<Word>) returns (d': nat)
    requires d + |ListBytes(ws)| <= buffer.Length
    modifies buffer
    ensures d' == d + |ListBytes(ws)|
    ensures buffer[..d'] == old(buffer[..d]) + ListBytes(ws) && Unwritten(buffer, d', old(buffer[..]))
  {
    hide WordBytes;
    var size := |ws| % WORD_SPAN;
    d' := Write(buffer, d, WordBytes(size));
    for j := 0 to size
      invariant d' == d + 4 + 4 * j
      invariant buffer[..d'] == old(buffer[..d]) + WordBytes(size) + WordsBytes(ws[..j])
      invariant Unwritten(buffer, d', old(buffer[..]))
    {
      d' := Write(buffer, d', WordBytes(ws[j]));
      assert ws[..j + 1][..j] == ws[..j];
    }
    assert buffer[..d'] == old(buffer[..d]) + ListBytes(ws);
  }

  method WriteTensor(buffer: array<Byte>, d: nat, t: StoredInfo) returns (d': nat)
    requires Typed(t) && d + |TensorBytes(t)| <= buffer.Length
    modifies buffer
    ensures d' == d + |TensorBytes(t)|
    ensures buffer[..d'] == old(buffer[..d]) + TensorBytes(t) && Unwritten(buffer, d', old(buffer[..]))
  {
    hide WordBytes, ListBytes, MaskWords;
    d' := Write(buffer, d, WordBytes(t.gridSizeX));
    d' := Write(buffer, d', WordBytes(t.gridSizeY));
    d' := Write(buffer, d', WordBytes(t.numBBoxes));
    d' := Write(buffer, d', WordBytes(t.scaleXY));
    assert buffer[..d'] == old(buffer[..d]) + GridBytes(t);
    d' := WriteList(buffer, d', t.anchors);
    d' := WriteList(buffer, d', MaskWords(t.mask));
    assert buffer[..d'] == old(buffer[..d]) + TensorBytes(t);
  }

  lemma {:induction false} TensorsBytesGrow(ts: seq<StoredInfo>, i: nat)
    requires i < |ts| && forall t | t in ts :: Typed(t)
    ensures TensorsBytes(ts[..i + 1]) == TensorsBytes(ts[..i]) + TensorBytes(ts[i])
    ensures |TensorsBytes(ts[..i + 1])| <= |TensorsBytes(ts)|
    decreases |ts| - i
  {
    assert ts[..i + 1][..i] == ts[..i];
    if i + 1 == |ts| { assert ts[..i + 1] == ts; } else { TensorsBytesGrow(ts, i + 1); }
  }

  lemma NoTensors()
    ensures TensorsBytes([]) == []
  {
  }

  method WriteHeader(l: StoredPlugin, buffer: array<Byte>) returns (d: nat)
    requires 28 <= buffer.Length
    modifies buffer
    ensures d == 28 && buffer[..d] == HeaderBytes(l) && Unwritten(buffer, d, old(buffer[..]))
  {
    hide WordBytes, LongBytes;
    d := Write(buffer, 0, WordBytes(l.netWidth));
    d := Write(buffer, d, WordBytes(l.netHeight));
    d := Write(buffer, d, WordBytes(l.numClasses));
    d := Write(buffer, d, WordBytes(l.newCoords));
    d := Write(buffer, d, LongBytes(l.outputSize));
    d := Write(buffer, d, WordBytes(|l.tensors| % WORD_SPAN));
    assert buffer[..d] == HeaderBytes(l);
  }

  /** The buffer starts with the written form of the layer; the rest of it is as before. */
  method Serialize(l: StoredPlugin, buffer: array<Byte>) returns (d: nat)
    requires LayerTyped(l) && |LayerBytes(l)| <= buffer.Length
    modifies buffer
    ensures d == |LayerBytes(l)|
    ensures buffer[..d] == LayerBytes(l) && buffer[d..] == old(buffer[d..])
  {
    hide HeaderBytes, TensorBytes, Typed;
    var ts := Prefixed(l.tensors);
    d := WriteHeader(l, buffer);
    NoTensors();
    for i := 0 to |ts|
      invariant d == 28 + |TensorsBytes(ts[..i])| <= buffer.Length
      invariant buffer[..d] == HeaderBytes(l) + TensorsBytes(ts[..i])
      invariant Unwritten(buffer, d, old(buffer[..]))
    {
      TensorsBytesGrow(ts, i);
      d := WriteTensor(buffer, d, ts[i]);
    }
    assert ts[..|ts|] == ts;
  }

  // ---------- Reading with a cursor. None: the source would read past the end of its data. ----------

  method TakeWord(data: seq<Byte>, d: nat) returns (w: Option<Word>, d': nat)
    requires d <= |data|
    ensures d' <= |data| && (w.None? ==> ReadWord(data[d..]).None?)
    ensures w.Some? ==> ReadWord(data[d..]) == Some((w.value, data[d'..]))
  {
    if d + 4 > |data| { return None, d; }
    w, d' := Some(WordOf(data[d..d + 4])), d + 4;
    assert data[d..][..4] == data[d..d + 4];
  }

  method TakeLong(data: seq<Byte>, d: nat) returns (w: Option<Long>, d': nat)
    requires d <= |data|
    ensures d' <= |data| && (w.None? ==> ReadLong(data[d..]).None?)
    ensures w.Some? ==> ReadLong(data[d..]) == Some((w.value, data[d'..]))
  {
    if d + 8 > |data| { return None, d; }
    w, d' := Some(LongOf(data[d..d + 8])), d + 8;
    assert data[d..][..8] == data[d..d + 8];
  }

  lemma {:induction false} ReadWordsFails(s: seq<Byte>, i: nat, n: nat)
    requires i <= n && ReadWords(s, i).None?
    ensures ReadWords(s, n).None?
    decreases n
  {
    if i < n { ReadWordsFails(s, i, n - 1); }
  }

  method TakeList(data: seq<Byte>, d: nat) returns (ws: Option<seq<Word>>, d': nat)
    requires d <= |data|
    ensures d' <= |data| && (ws.None? ==> ReadList(data[d..]).None?)
    ensures ws.Some? ==> ReadList(data[d..]) == Some((ws.value, data[d'..]))
  {
    hide ReadWord;
    var n;
    n, d' := TakeWord(data, d);
    if n.None? { return None, d; }
    ghost var start := data[d'..];
    var list: seq<Word> := [];
    for j := 0 to n.value
      invariant d' <= |data| && ReadWords(start, j) == Some((list, data[d'..]))
    {
      var w;
      w, d' := TakeWord(data, d');
      if w.None? {
        ReadWordsFails(start, j + 1, n.value);
        return None, d;
      }
      list := list + [w.value];
    }
    ws := Some(list);
  }

  method TakeTensor(data: seq<Byte>, d: nat) returns (t: Option<StoredInfo>, d': nat)
    requires d <= |data|
    ensures d' <= |data| && (t.None? ==> ReadTensor(data[d..]).None?)
    ensures t.Some? ==> ReadTensor(data[d..]) == Some((t.value, data[d'..]))
  {
    hide ReadWord, ReadList, MaskOf;
    t := None;
    var gridSizeX, gridSizeY, numBBoxes, scaleXY, anchors, mask;
    gridSizeX, d' := TakeWord(data, d);
    if gridSizeX.None? { return; }
    gridSizeY, d' := TakeWord(data, d');
    if gridSizeY.None? { return; }
    numBBoxes, d' := TakeWord(data, d');
    if numBBoxes.None? { return; }
    scaleXY, d' := TakeWord(data, d');
    if scaleXY.None? { return; }
    anchors, d' := TakeList(data, d');
    if anchors.None? { return; }
    mask, d' := TakeList(data, d');
    if mask.None? { return; }
    t := Some(TensorInfo("", gridSizeX.value, gridSizeY.value, numBBoxes.value, scaleXY.value, anchors.value,
                         MaskOf(mask.value)));
  }

  lemma {:induction false} ReadTensorsFails(s: seq<Byte>, i: nat, n: nat)
    requires i <= n && ReadTensors(s, i).None?
    ensures ReadTensors(s, n).None?
    decreases n
  {
    hide ReadTensor, Typed, StoredTensor;
    if i < n { ReadTensorsFails(s, i, n - 1); }
  }

  /** The constructor from file data. */
  method Deserialize(data: seq<Byte>) returns (l: Option<StoredPlugin>, d: nat)
    ensures d <= |data| && (l.None? <==> ReadLayer(data).None?)
    ensures l.Some? ==> ReadLayer(data) == Some((l.value, data[d..]))
  {
    hide ReadWord, ReadLong, ReadTensor;
    l := None;
    var netWidth, netHeight, numClasses, newCoords, n;
    netWidth, d := TakeWord(data, 0);
    assert data[0..] == data;
    if netWidth.None? { return; }
    netHeight, d := TakeWord(data, d);
    if netHeight.None? { return; }
    numClasses, d := TakeWord(data, d);
    if numClasses.None? { return; }
    newCoords, d := TakeWord(data, d);
    if newCoords.None? { return; }
    var outputSize;
    outputSize, d := TakeLong(data, d);
    if outputSize.None? { return; }
    n, d := TakeWord(data, d);
    if n.None? { return; }
    ghost var start := data[d..];
    var tensors: seq<StoredInfo> := [];
    for i := 0 to n.value
      invariant d <= |data| && ReadTensors(start, i) == Some((tensors, data[d..]))
    {
      var t;
      t, d := TakeTensor(data, d);
      if t.None? {
        ReadTensorsFails(start, i + 1, n.value);
        return;
      }
      tensors := tensors + [t.value];
    }
    l := Some(StoredPlugin(netWidth.value, netHeight.value, numClasses.value, newCoords.value, outputSize.value,
                           tensors));
  }
}
