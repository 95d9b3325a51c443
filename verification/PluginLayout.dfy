/** The engine file byte by byte: at which offset of the written plugin each field and each list element is. */
module PluginLayout {
  import opened YoloTensor
  import opened PluginCodec

  // The four bytes at k as a number, least first.
  function WordAt(s: seq<Byte>, k: nat): nat
    requires k + 4 <= |s|
  {
    s[k] as int + 0x100 * s[k + 1] as int + 0x1_0000 * s[k + 2] as int + 0x100_0000 * s[k + 3] as int
  }

  lemma FirstFour(bs: seq<Byte>)
    requires |bs| >= 4
    ensures Value(bs) == WordAt(bs, 0) + 0x1_0000_0000 * Value(bs[4..])
  {
    assert Value(bs) == bs[0] as int + 0x100 * Value(bs[1..]);
    assert Value(bs[1..]) == bs[1] as int + 0x100 * Value(bs[2..]) by { assert bs[1..][1..] == bs[2..]; }
    assert Value(bs[2..]) == bs[2] as int + 0x100 * Value(bs[3..]) by { assert bs[2..][1..] == bs[3..]; }
    assert Value(bs[3..]) == bs[3] as int + 0x100 * Value(bs[4..]) by { assert bs[3..][1..] == bs[4..]; }
  }

  lemma FourBytes(n: Word)
    ensures WordAt(WordBytes(n), 0) == n
  {
    hide LittleEndian;
    Spans();
    ValueOfBytes(n, 4);
    FirstFour(WordBytes(n));
    assert Value([]) == 0;
  }

  lemma WordWithin(s: seq<Byte>, k: nat, n: Word)
    requires k + 4 <= |s| && s[k..k + 4] == WordBytes(n)
    ensures WordAt(s, k) == n
  {
    hide WordBytes;
    FourBytes(n);
    var part := s[k..k + 4];
    assert part[0] == s[k] && part[1] == s[k + 1] && part[2] == s[k + 2] && part[3] == s[k + 3];
  }

  lemma SliceOf(s: seq<Byte>, k: nat, n: nat, i: nat, j: nat)
    requires k + n <= |s| && i <= j <= n
    ensures s[k..k + n][i..j] == s[k + i..k + j]
  {
    var (a, b) := (s[k..k + n][i..j], s[k + i..k + j]);
    assert |a| == |b| && forall x | 0 <= x < |a| :: a[x] == b[x];
  }

  lemma {:induction false} WordsLie(ws: seq<Word>, k: nat)
    requires k < |ws|
    ensures WordsBytes(ws)[4 * k..4 * k + 4] == WordBytes(ws[k])
  {
    hide WordBytes;
    if k < |ws| - 1 {
      WordsLie(ws[..|ws| - 1], k);
      assert WordsBytes(ws)[4 * k..4 * k + 4] == WordsBytes(ws[..|ws| - 1])[4 * k..4 * k + 4];
    }
  }

  // n words stand at k.
  predicate ListLies(s: seq<Byte>, k: nat, ws: seq<Word>, n: nat) {
    && k + 4 + 4 * n <= |s| && n <= |ws| && WordAt(s, k) == n
    && forall i | 0 <= i < n :: WordAt(s, k + 4 + 4 * i) == ws[i]
  }

  /** A list is its size modulo 2^32 and that many elements. */
  lemma ListLayout(s: seq<Byte>, k: nat, ws: seq<Word>)
    requires k + |ListBytes(ws)| <= |s| && s[k..k + |ListBytes(ws)|] == ListBytes(ws)
    ensures |ListBytes(ws)| == 4 + 4 * (|ws| % 0x1_0000_0000)
    ensures ListLies(s, k, ws, |ws| % 0x1_0000_0000)
  {
    hide WordBytes, WordsBytes;
    var (n, bs, part) := (|ws| % 0x1_0000_0000, ListBytes(ws), s[k..k + |ListBytes(ws)|]);
    assert s[k..k + 4] == part[..4] == WordBytes(n);
    WordWithin(s, k, n);
    SliceOf(s, k, 4 + 4 * n, 4, 4 + 4 * n);
    forall i | 0 <= i < n ensures WordAt(s, k + 4 + 4 * i) == ws[i] {
      WordsLie(Prefixed(ws), i);
      SliceOf(s, k + 4, 4 * n, 4 * i, 4 * i + 4);
      WordWithin(s, k + 4 + 4 * i, ws[i]);
    }
  }

  // The size of the written form of a tensor.
  function Width(t: StoredInfo): nat { 24 + 4 * (|t.anchors| % 0x1_0000_0000) + 4 * (|t.mask| % 0x1_0000_0000) }

  /** The tensor at k: grid width, grid height, boxes and scale_x_y; the anchors; the masks, in two's complement. */
  ghost predicate TensorLies(s: seq<Byte>, k: nat, t: StoredInfo) {
    var (a, m) := (|t.anchors| % 0x1_0000_0000, |t.mask| % 0x1_0000_0000);
    && k + Width(t) <= |s|
    && WordAt(s, k) == t.gridSizeX && WordAt(s, k + 4) == t.gridSizeY
    && WordAt(s, k + 8) == t.numBBoxes && WordAt(s, k + 12) == t.scaleXY
    && ListLies(s, k + 16, t.anchors, a)
    && WordAt(s, k + 20 + 4 * a) == m
    && forall i | 0 <= i < m :: WordAt(s, k + 24 + 4 * a + 4 * i) == t.mask[i] % 0x1_0000_0000
  }

  lemma GridWords(t: StoredInfo)
    requires Typed(t)
    ensures var g := GridBytes(t);
      && g[..4] == WordBytes(t.gridSizeX) && g[4..8] == WordBytes(t.gridSizeY)
      && g[8..12] == WordBytes(t.numBBoxes) && g[12..16] == WordBytes(t.scaleXY)
  {
    hide WordBytes;
  }

  lemma GridLayout(s: seq<Byte>, k: nat, t: StoredInfo)
    requires Typed(t) && k + 16 <= |s| && s[k..k + 16] == GridBytes(t)
    ensures WordAt(s, k) == t.gridSizeX && WordAt(s, k + 4) == t.gridSizeY
    ensures WordAt(s, k + 8) == t.numBBoxes && WordAt(s, k + 12) == t.scaleXY
  {
    hide WordBytes;
    GridWords(t);
    SliceOf(s, k, 16, 0, 4);
    SliceOf(s, k, 16, 4, 8);
    SliceOf(s, k, 16, 8, 12);
    SliceOf(s, k, 16, 12, 16);
    WordWithin(s, k, t.gridSizeX);
    WordWithin(s, k + 4, t.gridSizeY);
    WordWithin(s, k + 8, t.numBBoxes);
    WordWithin(s, k + 12, t.scaleXY);
  }

  lemma ListSize(ws: seq<Word>)
    ensures |ListBytes(ws)| == 4 + 4 * (|ws| % 0x1_0000_0000)
  {
  }

  // The three parts of the written form at k.
  lemma TensorParts(s: seq<Byte>, k: nat, t: StoredInfo)
    requires Typed(t) && k + |TensorBytes(t)| <= |s| && s[k..k + |TensorBytes(t)|] == TensorBytes(t)
    ensures var (anchors, mask) := (ListBytes(t.anchors), ListBytes(MaskWords(t.mask)));
      && |TensorBytes(t)| == 16 + |anchors| + |mask|
      && s[k..k + 16] == GridBytes(t) && s[k + 16..k + 16 + |anchors|] == anchors
      && s[k + 16 + |anchors|..k + 16 + |anchors| + |mask|] == mask
  {
    hide GridBytes, ListBytes, MaskWords;
    var (bs, x, y, z) := (TensorBytes(t), GridBytes(t), ListBytes(t.anchors), ListBytes(MaskWords(t.mask)));
    ThreeParts(x, y, z);
    SliceOf(s, k, |bs|, 0, 16);
    SliceOf(s, k, |bs|, 16, 16 + |y|);
    SliceOf(s, k, |bs|, 16 + |y|, 16 + |y| + |z|);
  }

  lemma ThreeParts(x: seq<Byte>, y: seq<Byte>, z: seq<Byte>)
    ensures var s := x + y + z;
      s[0..|x|] == x && s[|x|..|x| + |y|] == y && s[|x| + |y|..|x| + |y| + |z|] == z
  {
  }

  lemma TensorLayout(s: seq<Byte>, k: nat, t: StoredInfo)
    requires Typed(t) && k + |TensorBytes(t)| <= |s| && s[k..k + |TensorBytes(t)|] == TensorBytes(t)
    ensures |TensorBytes(t)| == Width(t) && TensorLies(s, k, t)
  {
    hide GridBytes, ListBytes, MaskWords, WordAt, TensorBytes;
    var ws := MaskWords(t.mask);
    var (a, m) := (|t.anchors| % 0x1_0000_0000, |t.mask| % 0x1_0000_0000);
    TensorParts(s, k, t);
    ListSize(t.anchors);
    ListSize(ws);
    GridLayout(s, k, t);
    ListLayout(s, k + 16, t.anchors);
    ListLayout(s, k + 20 + 4 * a, ws);
    MasksLie(s, k + 20 + 4 * a, t.mask, m);
  }

  lemma MasksLie(s: seq<Byte>, k: nat, mask: seq<int>, m: nat)
    requires (forall x | x in mask :: -0x8000_0000 <= x < 0x8000_0000) && ListLies(s, k, MaskWords(mask), m)
    ensures forall i | 0 <= i < m :: WordAt(s, k + 4 + 4 * i) == mask[i] % 0x1_0000_0000
  {
    hide WordAt;
    forall i | 0 <= i < m ensures WordAt(s, k + 4 + 4 * i) == mask[i] % 0x1_0000_0000 {
      assert mask[i] in mask && MaskWords(mask)[i] == Unsigned(mask[i]);
    }
  }

  // Where tensor k starts.
  function StartOf(ts: seq<StoredInfo>, k: nat): nat
    requires k <= |ts|
  {
    if k == 0 then 28 else StartOf(ts, k - 1) + Width(ts[k - 1])
  }

  // The fields before the tensors.
  ghost predicate HeaderLies(s: seq<Byte>, l: StoredPlugin) {
    && |s| >= 28
    && WordAt(s, 0) == l.netWidth && WordAt(s, 4) == l.netHeight
    && WordAt(s, 8) == l.numClasses && WordAt(s, 12) == l.newCoords
    && WordAt(s, 16) + 0x1_0000_0000 * WordAt(s, 20) == l.outputSize
    && WordAt(s, 24) == |l.tensors| % 0x1_0000_0000
  }

  lemma EightBytes(s: seq<Byte>, k: nat, n: Long)
    requires k + 8 <= |s| && s[k..k + 8] == LongBytes(n)
    ensures WordAt(s, k) + 0x1_0000_0000 * WordAt(s, k + 4) == n
  {
    hide LittleEndian, Value;
    Spans();
    ValueOfBytes(n, 8);
    var part := s[k..k + 8];
    FirstFour(part);
    FirstFour(part[4..]);
    NoValue(part[4..][4..]);
  }

  lemma NoValue(bs: seq<Byte>)
    requires |bs| == 0
    ensures Value(bs) == 0
  {
  }

  lemma HeaderLayout(s: seq<Byte>, l: StoredPlugin)
    requires |s| >= 28 && s[..28] == HeaderBytes(l)
    ensures HeaderLies(s, l)
  {
    hide WordAt, WordBytes, LongBytes;
    var part := s[..28];
    assert s[0..4] == part[..4] == WordBytes(l.netWidth) && s[4..8] == part[4..8] == WordBytes(l.netHeight);
    assert s[8..12] == part[8..12] == WordBytes(l.numClasses) && s[12..16] == part[12..16] == WordBytes(l.newCoords);
    assert s[16..24] == part[16..24] == LongBytes(l.outputSize);
    assert s[24..28] == part[24..28] == WordBytes(|l.tensors| % 0x1_0000_0000);
    WordWithin(s, 0, l.netWidth);
    WordWithin(s, 4, l.netHeight);
    WordWithin(s, 8, l.numClasses);
    WordWithin(s, 12, l.newCoords);
    EightBytes(s, 16, l.outputSize);
    WordWithin(s, 24, |l.tensors| % 0x1_0000_0000);
  }

  lemma {:induction false} TensorsLie(ts: seq<StoredInfo>, k: nat)
    requires k <= |ts| && forall t | t in ts :: Typed(t)
    ensures 28 + |TensorsBytes(ts[..k])| == StartOf(ts, k)
    ensures TensorsBytes(ts[..k]) <= TensorsBytes(ts)
    ensures k < |ts| ==> TensorsBytes(ts[..k]) + TensorBytes(ts[k]) <= TensorsBytes(ts)
  {
    hide TensorBytes, Typed;
    if k > 0 {
      TensorsLie(ts, k - 1);
      assert ts[..k][..k - 1] == ts[..k - 1];
      WidthIs(ts[k - 1]);
    }
    TensorsPrefix(ts, k);
    if k < |ts| {
      TensorsPrefix(ts, k + 1);
      assert ts[..k + 1][..k] == ts[..k];
    }
  }

  lemma WidthIs(t: StoredInfo)
    requires Typed(t)
    ensures |TensorBytes(t)| == Width(t)
  {
    hide GridBytes, ListBytes, MaskWords;
    ListSize(t.anchors);
    ListSize(MaskWords(t.mask));
  }

  lemma {:induction false} TensorsPrefix(ts: seq<StoredInfo>, k: nat)
    requires k <= |ts| && forall t | t in ts :: Typed(t)
    ensures TensorsBytes(ts[..k]) <= TensorsBytes(ts)
  {
    hide TensorBytes, Typed;
    if k == |ts| {
      assert ts[..k] == ts;
    } else {
      TensorsPrefix(ts[..|ts| - 1], k);
      assert ts[..|ts| - 1][..k] == ts[..k];
    }
  }

  // How many of n elements are written.
  function Written(n: nat): (w: nat)
    ensures w <= n
  {
    n % 0x1_0000_0000
  }

  // n tensors follow the header, and nothing else does.
  ghost predicate TensorsFill(s: seq<Byte>, ts: seq<StoredInfo>, n: nat)
    requires n <= |ts|
  {
    |s| == StartOf(ts, n) && forall k | 0 <= k < n :: TensorLies(s, StartOf(ts, k), ts[k])
  }

  /** The written plugin: width, height, classes and new_coords in one word each, the output size in two, the number of
      tensors modulo 2^32, and that many tensors one after the other from byte 28 on; nothing else. */
  lemma LayerLayout(l: StoredPlugin)
    requires LayerTyped(l)
    ensures HeaderLies(LayerBytes(l), l) && TensorsFill(LayerBytes(l), l.tensors, Written(|l.tensors|))
  {
    hide HeaderBytes, TensorBytes, Typed, TensorsBytes, StartOf, TensorLies, Width;
    var (s, ts, n) := (LayerBytes(l), Prefixed(l.tensors), Written(|l.tensors|));
    assert s[..28] == HeaderBytes(l);
    HeaderLayout(s, l);
    TensorsLie(ts, n);
    assert ts[..n] == ts;
    SameStart(l.tensors, ts, n);
    forall k | 0 <= k < n ensures TensorLies(s, StartOf(l.tensors, k), l.tensors[k]) {
      TensorsLie(ts, k);
      SameStart(l.tensors, ts, k);
      var at := StartOf(l.tensors, k);
      var before := HeaderBytes(l) + TensorsBytes(ts[..k]);
      assert |before| == at && before + TensorBytes(ts[k]) <= s;
      assert s[at..at + |TensorBytes(ts[k])|] == TensorBytes(ts[k]);
      TensorLayout(s, at, ts[k]);
    }
  }

  lemma {:induction false} SameStart(ts: seq<StoredInfo>, us: seq<StoredInfo>, k: nat)
    requires k <= |us| && us <= ts
    ensures StartOf(ts, k) == StartOf(us, k)
  {
    if k > 0 { SameStart(ts, us, k - 1); }
  }
}
