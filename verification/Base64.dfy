/** The Base64 codec of perception/include/base64.hpp (little-endian tables): buffers of bytes, two
    encoding tables, four decoding tables and a single OR/compare validity test.
    The reference is section 4 of RFC 4648: the text is the bit stream of the data cut into 6-bit digits. */
module Base64 {

  datatype Error = SizeNotMultipleOfFour | TooMuchPadding | InvalidCharacter

  datatype Decoded = Ok(bytes: seq<bv8>) | Err(error: Error)

  datatype Status = Done | Thrown(error: Error)

  const PAD: bv8 := 0x3D
  const BAD_CHAR: bv32 := 0x01FF_FFFF

  // ---------- Alphabet ----------

  predicate InAlphabet(c: bv8) {
    0x41 <= c <= 0x5A || 0x61 <= c <= 0x7A || 0x30 <= c <= 0x39 || c == 0x2B || c == 0x2F
  }

  // The 64 characters A-Z a-z 0-9 + / in order of their value.
  function Symbol(i: bv8): bv8
    requires i < 64
  {
    if i < 26 then i + 0x41
    else if i < 52 then i + 0x47
    else if i < 62 then i - 4
    else if i == 62 then 0x2B
    else 0x2F
  }

  function Value(c: bv8): bv8 {
    if 0x41 <= c <= 0x5A then c - 0x41
    else if 0x61 <= c <= 0x7A then c - 0x47
    else if 0x30 <= c <= 0x39 then c + 4
    else if c == 0x2B then 62
    else if c == 0x2F then 63
    else 64
  }

  lemma SymbolValue(i: bv8)
    requires i < 64
    ensures InAlphabet(Symbol(i)) && Value(Symbol(i)) == i && Symbol(i) != PAD
  {
  }

  lemma ValueSymbol(c: bv8)
    ensures InAlphabet(c) <==> Value(c) < 64
    ensures InAlphabet(c) ==> Symbol(Value(c)) == c && c != PAD
  {
  }

  // ---------- Tables ----------

  function EncodeTable0(t: bv8): bv8 { Symbol(t >> 2) }

  function EncodeTable1(t: bv8): bv8 { Symbol(t & 63) }

  // Where each decoding table puts the bits of a digit in the little-endian word.
  function Part0(i: bv8): bv32 { (i as bv32) << 2 }
  function Part1(i: bv8): bv32 { (((i & 15) as bv32) << 12) | ((i >> 4) as bv32) }
  function Part2(i: bv8): bv32 { (((i & 3) as bv32) << 22) | (((i >> 2) as bv32) << 8) }
  function Part3(i: bv8): bv32 { (i as bv32) << 16 }

  function DecodeTable0(c: bv8): bv32 { if InAlphabet(c) then Part0(Value(c)) else BAD_CHAR }
  function DecodeTable1(c: bv8): bv32 { if InAlphabet(c) then Part1(Value(c)) else BAD_CHAR }
  function DecodeTable2(c: bv8): bv32 { if InAlphabet(c) then Part2(Value(c)) else BAD_CHAR }
  function DecodeTable3(c: bv8): bv32 { if InAlphabet(c) then Part3(Value(c)) else BAD_CHAR }

  // Byte k of a word in memory, on a little-endian machine.
  function TempByte0(w: bv32): bv8 { (w & 0xFF) as bv8 }
  function TempByte1(w: bv32): bv8 { ((w >> 8) & 0xFF) as bv8 }
  function TempByte2(w: bv32): bv8 { ((w >> 16) & 0xFF) as bv8 }

  // ---------- Encoding ----------

  function EncodeBlock(t1: bv8, t2: bv8, t3: bv8): seq<bv8> {
    [EncodeTable0(t1),
     EncodeTable1(((t1 & 0x03) << 4) | ((t2 >> 4) & 0x0F)),
     EncodeTable1(((t2 & 0x0F) << 2) | ((t3 >> 6) & 0x03)),
     EncodeTable1(t3)]
  }

  function EncodeTail(x: seq<bv8>): seq<bv8>
    requires |x| < 3
  {
    if |x| == 0 then []
    else if |x| == 1 then [EncodeTable0(x[0]), EncodeTable1((x[0] & 0x03) << 4), PAD, PAD]
    else [EncodeTable0(x[0]), EncodeTable1(((x[0] & 0x03) << 4) | ((x[1] >> 4) & 0x0F)),
          EncodeTable1((x[1] & 0x0F) << 2), PAD]
  }

  function Encode(x: seq<bv8>): seq<bv8> {
    if |x| < 3 then EncodeTail(x)
    else EncodeBlock(x[0], x[1], x[2]) + Encode(x[3..])
  }

  // ---------- Decoding ----------

  // The OR of the table entries of a block, and of a block with one or two padding signs.
  function Word(c1: bv8, c2: bv8, c3: bv8, c4: bv8): bv32 {
    DecodeTable0(c1) | DecodeTable1(c2) | DecodeTable2(c3) | DecodeTable3(c4)
  }

  function PairWord(c1: bv8, c2: bv8, c3: bv8): bv32 { DecodeTable0(c1) | DecodeTable1(c2) | DecodeTable2(c3) }

  function SingleWord(c1: bv8, c2: bv8): bv32 { DecodeTable0(c1) | DecodeTable1(c2) }

  function DecodeGroups(s: seq<bv8>): Decoded
    requires |s| % 4 == 0
  {
    if |s| == 0 then Ok([])
    else
      var w := Word(s[0], s[1], s[2], s[3]);
      if w >= BAD_CHAR then Err(InvalidCharacter)
      else
        match DecodeGroups(s[4..])
        case Ok(rest) => Ok([TempByte0(w), TempByte1(w), TempByte2(w)] + rest)
        case Err(e) => Err(e)
  }

  function CountPad(s: seq<bv8>): nat {
    if |s| == 0 then 0 else (if s[0] == PAD then 1 else 0) + CountPad(s[1..])
  }

  function DecodeTail(q: seq<bv8>, padding: nat): Decoded
    requires |q| == 4 && 1 <= padding <= 2
  {
    if padding == 1 then
      var w := PairWord(q[0], q[1], q[2]);
      if w >= BAD_CHAR then Err(InvalidCharacter) else Ok([TempByte0(w), TempByte1(w)])
    else
      var w := SingleWord(q[0], q[1]);
      if w >= BAD_CHAR then Err(InvalidCharacter) else Ok([TempByte0(w)])
  }

  function Append(d: Decoded, e: Decoded): Decoded {
    if d.Err? then d else if e.Err? then e else Ok(d.bytes + e.bytes)
  }

  function Decode(s: seq<bv8>): Decoded {
    if |s| == 0 then Ok([])
    else if |s| % 4 != 0 then Err(SizeNotMultipleOfFour)
    else
      var padding := CountPad(s[|s| - 4..]);
      if padding > 2 then Err(TooMuchPadding)
      else if padding == 0 then DecodeGroups(s)
      else Append(DecodeGroups(s[..|s| - 4]), DecodeTail(s[|s| - 4..], padding))
  }

  // ---------- Bit facts ----------

  lemma BadCharTest(c1: bv8, c2: bv8, c3: bv8, c4: bv8)
    ensures Word(c1, c2, c3, c4) < BAD_CHAR
      <==> InAlphabet(c1) && InAlphabet(c2) && InAlphabet(c3) && InAlphabet(c4)
  {
  }

  // The 6-bit digits of three bytes.
  function Digit1(t1: bv8): bv8 { t1 >> 2 }
  function Digit2(t1: bv8, t2: bv8): bv8 { ((t1 & 3) << 4) | ((t2 >> 4) & 15) }
  function Digit3(t2: bv8, t3: bv8): bv8 { ((t2 & 15) << 2) | ((t3 >> 6) & 3) }
  function Digit4(t3: bv8): bv8 { t3 & 63 }

  lemma DigitRange(t1: bv8, t2: bv8, t3: bv8)
    ensures Digit1(t1) < 64 && Digit2(t1, t2) < 64 && Digit3(t2, t3) < 64 && Digit4(t3) < 64
  {
  }

  // The word four digits decode to.
  function Pack(a: bv8, b: bv8, c: bv8, d: bv8): bv32 {
    Part0(a) | Part1(b) | Part2(c) | Part3(d)
  }

  lemma PackBounds(a: bv8, b: bv8, c: bv8, d: bv8)
    requires a < 64 && b < 64 && c < 64 && d < 64
    ensures Pack(a, b, c, d) < BAD_CHAR
    ensures Part2(0) == 0 && Part3(0) == 0
  {
  }

  lemma PackSplits(t1: bv8, t2: bv8, t3: bv8)
    ensures var w := Pack(Digit1(t1), Digit2(t1, t2), Digit3(t2, t3), Digit4(t3));
      TempByte0(w) == t1 && TempByte1(w) == t2 && TempByte2(w) == t3
  {
  }

  lemma SplitPacks(a: bv8, b: bv8, c: bv8, d: bv8)
    requires a < 64 && b < 64 && c < 64 && d < 64
    ensures var w := Pack(a, b, c, d);
      var (t1, t2, t3) := (TempByte0(w), TempByte1(w), TempByte2(w));
      a == Digit1(t1) && b == Digit2(t1, t2) && c == Digit3(t2, t3) && d == Digit4(t3)
  {
  }

  lemma BlockSymbols(t1: bv8, t2: bv8, t3: bv8)
    ensures (DigitRange(t1, t2, t3); EncodeBlock(t1, t2, t3)
      == [Symbol(Digit1(t1)), Symbol(Digit2(t1, t2)), Symbol(Digit3(t2, t3)), Symbol(Digit4(t3))])
  {
  }

  lemma TailSymbols(x: seq<bv8>)
    requires 1 <= |x| < 3
    ensures var t2: bv8 := if |x| == 2 then x[1] else 0;
      (DigitRange(x[0], t2, 0); EncodeTail(x)
      == [Symbol(Digit1(x[0])), Symbol(Digit2(x[0], t2)), if |x| == 2 then Symbol(Digit3(t2, 0)) else PAD, PAD])
  {
  }

  lemma TablesAtSymbol(i: bv8)
    requires i < 64
    ensures DecodeTable0(Symbol(i)) == Part0(i) && DecodeTable1(Symbol(i)) == Part1(i)
    ensures DecodeTable2(Symbol(i)) == Part2(i) && DecodeTable3(Symbol(i)) == Part3(i)
  {
    hide Symbol, Value, InAlphabet, Part0, Part1, Part2, Part3;
    SymbolValue(i);
  }

  // The words of four digits, and of the three or two digits of a padded block.
  lemma FourDigitWord(a: bv8, b: bv8, c: bv8, d: bv8)
    requires a < 64 && b < 64 && c < 64 && d < 64
    ensures Word(Symbol(a), Symbol(b), Symbol(c), Symbol(d)) == Pack(a, b, c, d)
  {
    hide Symbol, DecodeTable0, DecodeTable1, DecodeTable2, DecodeTable3, Part0, Part1, Part2, Part3;
    TablesAtSymbol(a); TablesAtSymbol(b); TablesAtSymbol(c); TablesAtSymbol(d);
  }

  lemma ThreeDigitWord(a: bv8, b: bv8, c: bv8)
    requires a < 64 && b < 64 && c < 64
    ensures PairWord(Symbol(a), Symbol(b), Symbol(c)) == Pack(a, b, c, 0)
  {
    hide Symbol, DecodeTable0, DecodeTable1, DecodeTable2, DecodeTable3, Part0, Part1, Part2, Part3;
    TablesAtSymbol(a); TablesAtSymbol(b); TablesAtSymbol(c);
    PackBounds(a, b, c, 0);
  }

  lemma TwoDigitWord(a: bv8, b: bv8)
    requires a < 64 && b < 64
    ensures SingleWord(Symbol(a), Symbol(b)) == Pack(a, b, 0, 0)
  {
    hide Symbol, DecodeTable0, DecodeTable1, DecodeTable2, DecodeTable3, Part0, Part1, Part2, Part3;
    TablesAtSymbol(a); TablesAtSymbol(b);
    PackBounds(a, b, 0, 0);
  }

  // ---------- Round trip ----------

  lemma BlockRoundTrip(t1: bv8, t2: bv8, t3: bv8)
    ensures var b := EncodeBlock(t1, t2, t3);
      && (forall i :: 0 <= i < 4 ==> b[i] != PAD)
      && var w := Word(b[0], b[1], b[2], b[3]);
      w < BAD_CHAR && TempByte0(w) == t1 && TempByte1(w) == t2 && TempByte2(w) == t3
  {
    hide EncodeBlock, Word, Symbol, Value, InAlphabet, Pack, TempByte0, TempByte1, TempByte2,
         Digit1, Digit2, Digit3, Digit4;
    DigitRange(t1, t2, t3);
    BlockSymbols(t1, t2, t3);
    FourDigitWord(Digit1(t1), Digit2(t1, t2), Digit3(t2, t3), Digit4(t3));
    PackBounds(Digit1(t1), Digit2(t1, t2), Digit3(t2, t3), Digit4(t3));
    PackSplits(t1, t2, t3);
    SymbolValue(Digit1(t1)); SymbolValue(Digit2(t1, t2)); SymbolValue(Digit3(t2, t3)); SymbolValue(Digit4(t3));
  }

  lemma DigitsOfZero()
    ensures Digit4(0) == 0 && Digit3(0, 0) == 0
  {
  }

  lemma PairTailRoundTrip(t1: bv8, t2: bv8)
    ensures var q := EncodeTail([t1, t2]); |q| == 4 && CountPad(q) == 1 && DecodeTail(q, 1) == Ok([t1, t2])
  {
    hide EncodeTail, PairWord, SingleWord, Symbol, Value, InAlphabet, Pack,
         TempByte0, TempByte1, TempByte2, Digit1, Digit2, Digit3, Digit4, CountPad;
    var d1, d2, d3 := Digit1(t1), Digit2(t1, t2), Digit3(t2, 0);
    DigitRange(t1, t2, 0);
    TailSymbols([t1, t2]);
    DigitsOfZero();
    ThreeDigitWord(d1, d2, d3);
    PackBounds(d1, d2, d3, 0);
    PackSplits(t1, t2, 0);
    SymbolValue(d1); SymbolValue(d2); SymbolValue(d3);
    CountPadFour(Symbol(d1), Symbol(d2), Symbol(d3), PAD);
  }

  lemma SingleTailRoundTrip(t1: bv8)
    ensures var q := EncodeTail([t1]); |q| == 4 && CountPad(q) == 2 && DecodeTail(q, 2) == Ok([t1])
  {
    hide EncodeTail, PairWord, SingleWord, Symbol, Value, InAlphabet, Pack,
         TempByte0, TempByte1, TempByte2, Digit1, Digit2, Digit3, Digit4, CountPad;
    var d1, d2 := Digit1(t1), Digit2(t1, 0);
    DigitRange(t1, 0, 0);
    TailSymbols([t1]);
    DigitsOfZero();
    TwoDigitWord(d1, d2);
    PackBounds(d1, d2, 0, 0);
    PackSplits(t1, 0, 0);
    SymbolValue(d1); SymbolValue(d2);
    CountPadFour(Symbol(d1), Symbol(d2), PAD, PAD);
  }

  lemma TailRoundTrip(x: seq<bv8>)
    requires 1 <= |x| < 3
    ensures |EncodeTail(x)| == 4 && CountPad(EncodeTail(x)) == 3 - |x|
    ensures DecodeTail(EncodeTail(x), 3 - |x|) == Ok(x)
  {
    hide EncodeTail, DecodeTail, CountPad;
    if |x| == 1 {
      SingleTailRoundTrip(x[0]);
      assert x == [x[0]];
    } else {
      PairTailRoundTrip(x[0], x[1]);
      assert x == [x[0], x[1]];
    }
  }

  lemma CountPadFour(a: bv8, b: bv8, c: bv8, d: bv8)
    ensures CountPad([a, b, c, d]) == (if a == PAD then 1 else 0) + (if b == PAD then 1 else 0)
                                    + (if c == PAD then 1 else 0) + (if d == PAD then 1 else 0)
  {
    assert [a, b, c, d][1..] == [b, c, d] && [b, c, d][1..] == [c, d] && [c, d][1..] == [d];
    assert CountPad([d]) == (if d == PAD then 1 else 0);
    assert CountPad([c, d]) == (if c == PAD then 1 else 0) + CountPad([d]);
    assert CountPad([b, c, d]) == (if b == PAD then 1 else 0) + CountPad([c, d]);
  }

  lemma {:induction false} EncodeLength(x: seq<bv8>)
    ensures |Encode(x)| == 4 * ((|x| + 2) / 3)
  {
    hide EncodeTable0, EncodeTable1;
    if |x| >= 3 { EncodeLength(x[3..]); }
  }

  lemma EncodeUnfold(x: seq<bv8>)
    requires |x| >= 3
    ensures |EncodeBlock(x[0], x[1], x[2])| == 4
    ensures Encode(x) == EncodeBlock(x[0], x[1], x[2]) + Encode(x[3..])
  {
  }

  lemma DecodeUnfold(b: seq<bv8>, rest: seq<bv8>)
    requires |b| == 4 && |rest| % 4 == 0
    ensures var w := Word(b[0], b[1], b[2], b[3]);
      DecodeGroups(b + rest) == if w >= BAD_CHAR then Err(InvalidCharacter)
                                else Append(Ok([TempByte0(w), TempByte1(w), TempByte2(w)]), DecodeGroups(rest))
  {
  }

  // A text of whole blocks decodes block by block, and so does what precedes a tail.
  lemma {:induction false} EncodeDecodeGroups(x: seq<bv8>)
    requires |x| % 3 == 0
    ensures |Encode(x)| % 4 == 0 && DecodeGroups(Encode(x)) == Ok(x)
    ensures forall c :: c in Encode(x) ==> c != PAD
  {
    hide EncodeBlock, EncodeTail, Encode, DecodeGroups, Word, TempByte0, TempByte1, TempByte2;
    if |x| == 0 {
      EncodeShort(x);
      EmptyDecodes(x);
    } else {
      EncodeDecodeGroups(x[3..]);
      BlockRoundTrip(x[0], x[1], x[2]);
      EncodeUnfold(x);
      DecodeUnfold(EncodeBlock(x[0], x[1], x[2]), Encode(x[3..]));
      assert [x[0], x[1], x[2]] + x[3..] == x;
    }
  }

  lemma {:induction false} EncodeAppend(x: seq<bv8>, y: seq<bv8>)
    requires |x| % 3 == 0
    ensures Encode(x + y) == Encode(x) + Encode(y)
  {
    hide EncodeBlock, EncodeTail, Encode;
    if |x| == 0 {
      EncodeShort(x);
      assert x + y == y;
    } else {
      EncodeAppend(x[3..], y);
      EncodeUnfold(x);
      EncodeUnfold(x + y);
      assert (x + y)[3..] == x[3..] + y;
    }
  }

  lemma EncodeShort(x: seq<bv8>)
    requires |x| < 3
    ensures Encode(x) == EncodeTail(x) && (|x| == 0 ==> Encode(x) == [])
  {
  }

  lemma RoundTripWhole(x: seq<bv8>)
    requires |x| % 3 == 0
    ensures Decode(Encode(x)) == Ok(x)
  {
    hide EncodeTail, Encode, DecodeTail, CountPad, DecodeGroups;
    EncodeDecodeGroups(x);
    EncodeLength(x);
    var e := Encode(x);
    if |x| > 0 {
      var q := e[|e| - 4..];
      assert q == [q[0], q[1], q[2], q[3]];
      assert forall i :: 0 <= i < 4 ==> q[i] in e;
      CountPadFour(q[0], q[1], q[2], q[3]);
    }
  }

  lemma DecodePadded(f: seq<bv8>, q: seq<bv8>)
    requires |f| % 4 == 0 && |q| == 4 && 1 <= CountPad(q) <= 2
    ensures Decode(f + q) == Append(DecodeGroups(f), DecodeTail(q, CountPad(q)))
  {
    hide DecodeTail, DecodeGroups, CountPad;
    var s := f + q;
    assert s[..|s| - 4] == f && s[|s| - 4..] == q;
  }

  lemma RoundTripTail(front: seq<bv8>, back: seq<bv8>)
    requires |front| % 3 == 0 && 1 <= |back| < 3
    ensures Decode(Encode(front) + EncodeTail(back)) == Ok(front + back)
  {
    hide EncodeTail, Encode, Decode, DecodeTail, DecodeGroups, CountPad;
    EncodeDecodeGroups(front);
    TailRoundTrip(back);
    DecodePadded(Encode(front), EncodeTail(back));
  }

  /** Decoding what was encoded succeeds and gives the data back, for every byte sequence. */
  lemma RoundTrip(x: seq<bv8>)
    ensures Decode(Encode(x)) == Ok(x)
    ensures |Encode(x)| == 4 * ((|x| + 2) / 3)
  {
    hide EncodeTail, Encode, Decode;
    EncodeLength(x);
    var k := |x| - |x| % 3;
    if k == |x| {
      RoundTripWhole(x);
    } else {
      assert x == x[..k] + x[k..];
      EncodeAppend(x[..k], x[k..]);
      EncodeShort(x[k..]);
      RoundTripTail(x[..k], x[k..]);
    }
  }

  // ---------- What the encoding says, bit by bit ----------

  // Bit k of a byte, the most significant first.
  predicate ByteBit(b: bv8, k: nat)
    requires k < 8
  {
    b & (if k == 0 then 0x80 else if k == 1 then 0x40 else if k == 2 then 0x20 else if k == 3 then 0x10
         else if k == 4 then 8 else if k == 5 then 4 else if k == 6 then 2 else 1) != 0
  }

  // Bit k of a 6-bit digit, the most significant first.
  predicate DigitBit(v: bv8, k: nat)
    requires k < 6
  {
    ByteBit(v, k + 2)
  }

  // Bit n of the data; past the end, zero bits are added on the right.
  predicate DataBit(x: seq<bv8>, n: nat) {
    n < 8 * |x| && ByteBit(x[n / 8], n % 8)
  }

  lemma DigitMasks(t1: bv8, t2: bv8, t3: bv8, k: nat)
    requires k < 6
    ensures DigitBit(Digit1(t1), k) == ByteBit(t1, k)
    ensures DigitBit(Digit2(t1, t2), k) == if k < 2 then ByteBit(t1, k + 6) else ByteBit(t2, k - 2)
    ensures DigitBit(Digit3(t2, t3), k) == if k < 4 then ByteBit(t2, k + 4) else ByteBit(t3, k - 4)
    ensures DigitBit(Digit4(t3), k) == ByteBit(t3, k + 2)
  {
  }

  lemma BlockBits(t1: bv8, t2: bv8, t3: bv8, n: nat)
    requires n < 24
    ensures var b := EncodeBlock(t1, t2, t3);
      InAlphabet(b[n / 6]) && DigitBit(Value(b[n / 6]), n % 6) == DataBit([t1, t2, t3], n)
  {
    hide EncodeBlock, Symbol, Value, InAlphabet, ByteBit, DigitBit, Digit1, Digit2, Digit3, Digit4;
    var k := n % 6;
    DigitRange(t1, t2, t3);
    BlockSymbols(t1, t2, t3);
    SymbolValue(Digit1(t1)); SymbolValue(Digit2(t1, t2)); SymbolValue(Digit3(t2, t3)); SymbolValue(Digit4(t3));
    DigitMasks(t1, t2, t3, k);
    if n < 6 {
      assert n % 8 == k;
    } else if n < 12 {
      assert n / 6 == 1 && k == n - 6 && n % 8 == if k < 2 then k + 6 else k - 2;
    } else if n < 18 {
      assert n / 6 == 2 && k == n - 12 && n % 8 == if k < 4 then k + 4 else k - 4;
    } else {
      assert n / 6 == 3 && k == n - 18 && n % 8 == k + 2;
    }
  }

  lemma DataBitShift(x: seq<bv8>, n: nat)
    requires |x| >= 3
    ensures n < 24 ==> DataBit([x[0], x[1], x[2]], n) == DataBit(x, n)
    ensures n >= 24 ==> DataBit(x[3..], n - 24) == DataBit(x, n)
  {
    hide ByteBit;
    if n >= 24 {
      assert (n - 24) / 8 == n / 8 - 3 && (n - 24) % 8 == n % 8;
    }
  }

  lemma TailBits(x: seq<bv8>, n: nat)
    requires 1 <= |x| < 3 && n < 24
    ensures DataBit([x[0], if |x| == 2 then x[1] else 0, 0], n) == DataBit(x, n)
  {
  }

  lemma TailIsPrefix(x: seq<bv8>, i: nat)
    requires 1 <= |x| < 3 && i < 4
    ensures EncodeTail(x)[i] == if i <= |x| then EncodeBlock(x[0], if |x| == 2 then x[1] else 0, 0)[i] else PAD
  {
    hide EncodeTail, EncodeBlock, Symbol, Digit1, Digit2, Digit3, Digit4;
    var t2: bv8 := if |x| == 2 then x[1] else 0;
    DigitRange(x[0], t2, 0);
    TailSymbols(x);
    BlockSymbols(x[0], t2, 0);
  }

  // The number of 6-bit digits that hold n bytes.
  function DigitCount(n: nat): nat { (8 * n + 5) / 6 }

  predicate StreamDigit(x: seq<bv8>, e: seq<bv8>, n: nat) {
    n / 6 < |e| && InAlphabet(e[n / 6]) && DigitBit(Value(e[n / 6]), n % 6) == DataBit(x, n)
  }

  /** Section 4 of RFC 4648: the characters are the 6-bit digits of the data's bit stream, completed with
      zero bits, and every character after them is padding. */
  lemma {:induction false} EncodeIsBitStream(x: seq<bv8>, n: nat)
    ensures n < 6 * DigitCount(|x|) ==> StreamDigit(x, Encode(x), n)
    ensures DigitCount(|x|) <= n < |Encode(x)| ==> Encode(x)[n] == PAD
  {
    hide EncodeTail, EncodeBlock, ByteBit, DigitBit, InAlphabet, Value, DataBit;
    EncodeLength(x);
    if 1 <= |x| < 3 {
      EncodeShort(x);
      if n < 6 * DigitCount(|x|) {
        TailBits(x, n);
        BlockBits(x[0], if |x| == 2 then x[1] else 0, 0, n);
        TailIsPrefix(x, n / 6);
      }
      if n < 4 { TailIsPrefix(x, n); }
    } else if |x| >= 3 {
      DataBitShift(x, n);
      assert Encode(x) == EncodeBlock(x[0], x[1], x[2]) + Encode(x[3..]);
      BlockLength(x[0], x[1], x[2]);
      if n < 24 {
        BlockBits(x[0], x[1], x[2], n);
      } else {
        EncodeIsBitStream(x[3..], n - 24);
        assert (n - 24) / 6 == n / 6 - 4 && (n - 24) % 6 == n % 6;
      }
      if n >= 4 {
        EncodeIsBitStream(x[3..], n - 4);
        assert DigitCount(|x[3..]|) == DigitCount(|x|) - 4;
      }
    }
  }

  lemma BlockLength(t1: bv8, t2: bv8, t3: bv8)
    ensures |EncodeBlock(t1, t2, t3)| == 4
  {
  }

  // ---------- Which texts decoding accepts ----------

  predicate AllInAlphabet(s: seq<bv8>) { forall i :: 0 <= i < |s| ==> InAlphabet(s[i]) }

  // Alphabet characters followed by p padding signs.
  predicate PaddedText(s: seq<bv8>, p: nat) {
    p <= |s| && AllInAlphabet(s[..|s| - p]) && forall i :: |s| - p <= i < |s| ==> s[i] == PAD
  }

  predicate WellFormed(s: seq<bv8>) {
    |s| % 4 == 0 && (PaddedText(s, 0) || PaddedText(s, 1) || PaddedText(s, 2))
  }

  // One comparison of the OR of the table entries is the same as checking every character.
  lemma BadCharTestPadded(c1: bv8, c2: bv8, c3: bv8)
    ensures PairWord(c1, c2, c3) < BAD_CHAR
      <==> InAlphabet(c1) && InAlphabet(c2) && InAlphabet(c3)
    ensures SingleWord(c1, c2) < BAD_CHAR <==> InAlphabet(c1) && InAlphabet(c2)
  {
  }

  lemma {:induction false} GroupsAccept(s: seq<bv8>)
    requires |s| % 4 == 0
    ensures DecodeGroups(s).Ok? <==> AllInAlphabet(s)
    ensures DecodeGroups(s).Ok? ==> |DecodeGroups(s).bytes| == |s| / 4 * 3
  {
    hide Word, InAlphabet, TempByte0, TempByte1, TempByte2;
    if |s| > 0 {
      GroupsAccept(s[4..]);
      BadCharTest(s[0], s[1], s[2], s[3]);
      assert forall i :: 4 <= i < |s| ==> s[i] == s[4..][i - 4];
    }
  }

  lemma TailAccepts(q: seq<bv8>, p: nat)
    requires |q| == 4 && 1 <= p <= 2
    ensures DecodeTail(q, p).Ok? <==> AllInAlphabet(q[..4 - p])
  {
    hide PairWord, SingleWord, InAlphabet, TempByte0, TempByte1;
    BadCharTestPadded(q[0], q[1], q[2]);
  }

  // The number of padding signs among the last four characters, and what an accepted block makes of them.
  lemma LastBlock(q: seq<bv8>)
    requires |q| == 4
    ensures CountPad(q) <= 4
    ensures CountPad(q) == 0 && AllInAlphabet(q) <==> PaddedText(q, 0)
    ensures CountPad(q) == 1 && AllInAlphabet(q[..3]) <==> PaddedText(q, 1)
    ensures CountPad(q) == 2 && AllInAlphabet(q[..2]) <==> PaddedText(q, 2)
  {
    hide InAlphabet, CountPad, PaddedText, AllInAlphabet;
    assert q == [q[0], q[1], q[2], q[3]];
    CountPadFour(q[0], q[1], q[2], q[3]);
    assert q[..4] == q;
    FourAreText(q, 0);
    FourAreText(q, 1);
    FourAreText(q, 2);
  }

  lemma FourAreText(q: seq<bv8>, p: nat)
    requires |q| == 4 && p <= 2
    ensures PaddedText(q, p) <==> AllInAlphabet(q[..4 - p]) && forall i :: 4 - p <= i < 4 ==> q[i] == PAD
    ensures AllInAlphabet(q[..4 - p]) ==> forall i :: 0 <= i < 4 - p ==> q[i] != PAD
  {
  }

  lemma PaddedSplit(f: seq<bv8>, q: seq<bv8>, p: nat)
    requires |q| == 4 && p <= 2
    ensures PaddedText(f + q, p) <==> AllInAlphabet(f) && PaddedText(q, p)
  {
    hide InAlphabet;
    var s := f + q;
    assert s[..|s| - p] == f + q[..4 - p];
    AllInAlphabetConcat(f, q[..4 - p]);
    assert forall i :: 4 - p <= i < 4 ==> s[|f| + i] == q[i];
  }

  lemma DecodeUnpadded(f: seq<bv8>, q: seq<bv8>)
    requires |f| % 4 == 0 && |q| == 4
    ensures CountPad(q) == 0 ==> Decode(f + q) == DecodeGroups(f + q)
    ensures CountPad(q) > 2 ==> Decode(f + q) == Err(TooMuchPadding)
  {
  }

  /** Decoding accepts exactly the texts of whole blocks of alphabet characters that end in at most two
      padding signs. */
  lemma AcceptsExactly(s: seq<bv8>)
    ensures Decode(s).Ok? <==> WellFormed(s)
  {
    hide InAlphabet, CountPad, DecodeTail, DecodeGroups, PaddedText, AllInAlphabet;
    if |s| == 0 {
      EmptyAccepted(s);
    } else if |s| % 4 == 0 {
      var (f, q) := (s[..|s| - 4], s[|s| - 4..]);
      assert s == f + q;
      LastBlock(q);
      PaddedSplit(f, q, 0); PaddedSplit(f, q, 1); PaddedSplit(f, q, 2);
      AcceptsBlocks(f, q);
    }
  }

  lemma EmptyAccepted(s: seq<bv8>)
    requires |s| == 0
    ensures PaddedText(s, 0)
  {
  }

  lemma AcceptsBlocks(f: seq<bv8>, q: seq<bv8>)
    requires |f| % 4 == 0 && |q| == 4
    ensures Decode(f + q).Ok? <==>
      AllInAlphabet(f) && (PaddedText(q, 0) || PaddedText(q, 1) || PaddedText(q, 2))
  {
    hide InAlphabet, CountPad, DecodeTail, DecodeGroups, PaddedText, AllInAlphabet, Decode;
    LastBlock(q);
    DecodeUnpadded(f, q);
    GroupsAccept(f);
    if CountPad(q) == 0 {
      GroupsAccept(f + q);
      AllInAlphabetConcat(f, q);
    } else if CountPad(q) <= 2 {
      DecodePadded(f, q);
      TailAccepts(q, CountPad(q));
    }
  }

  lemma AllInAlphabetConcat(f: seq<bv8>, q: seq<bv8>)
    ensures AllInAlphabet(f + q) <==> AllInAlphabet(f) && AllInAlphabet(q)
  {
    hide InAlphabet;
    assert forall i :: 0 <= i < |f| ==> (f + q)[i] == f[i];
    assert forall i :: 0 <= i < |q| ==> (f + q)[|f| + i] == q[i];
  }

  // ---------- Encoding again what was decoded ----------

  // The bits of the last digit that no byte uses (section 3.5 of RFC 4648).
  predicate TrailingBitsZero(s: seq<bv8>)
    requires |s| % 4 == 0
  {
    |s| == 0
    || (var q := s[|s| - 4..];
        (CountPad(q) == 1 ==> Value(q[2]) & 3 == 0) && (CountPad(q) == 2 ==> Value(q[1]) & 15 == 0))
  }

  lemma WordIsPack(c1: bv8, c2: bv8, c3: bv8, c4: bv8)
    requires InAlphabet(c1) && InAlphabet(c2) && InAlphabet(c3) && InAlphabet(c4)
    ensures Word(c1, c2, c3, c4) == Pack(Value(c1), Value(c2), Value(c3), Value(c4))
    ensures Value(c1) < 64 && Value(c2) < 64 && Value(c3) < 64 && Value(c4) < 64
  {
    hide InAlphabet, Value, Part0, Part1, Part2, Part3;
    ValueSymbol(c1); ValueSymbol(c2); ValueSymbol(c3); ValueSymbol(c4);
  }

  lemma BlockReencode(c1: bv8, c2: bv8, c3: bv8, c4: bv8)
    requires InAlphabet(c1) && InAlphabet(c2) && InAlphabet(c3) && InAlphabet(c4)
    ensures var w := Word(c1, c2, c3, c4);
      EncodeBlock(TempByte0(w), TempByte1(w), TempByte2(w)) == [c1, c2, c3, c4]
  {
    hide Word, Pack, InAlphabet, Value, Symbol, TempByte0, TempByte1, TempByte2, EncodeBlock,
         Digit1, Digit2, Digit3, Digit4;
    var w := Word(c1, c2, c3, c4);
    WordIsPack(c1, c2, c3, c4);
    SplitPacks(Value(c1), Value(c2), Value(c3), Value(c4));
    BlockSymbols(TempByte0(w), TempByte1(w), TempByte2(w));
    ValueSymbol(c1); ValueSymbol(c2); ValueSymbol(c3); ValueSymbol(c4);
  }

  lemma {:induction false} GroupsReencode(s: seq<bv8>)
    requires |s| % 4 == 0 && DecodeGroups(s).Ok?
    ensures |DecodeGroups(s).bytes| % 3 == 0 && Encode(DecodeGroups(s).bytes) == s
  {
    hide Word, InAlphabet, TempByte0, TempByte1, TempByte2, EncodeBlock, Encode, DecodeGroups;
    if |s| == 0 {
      EmptyDecodes(s);
    } else {
      assert s == s[..4] + s[4..];
      DecodeUnfold(s[..4], s[4..]);
      GroupsReencode(s[4..]);
      BadCharTest(s[0], s[1], s[2], s[3]);
      BlockReencode(s[0], s[1], s[2], s[3]);
      var bytes := DecodeGroups(s).bytes;
      assert bytes[3..] == DecodeGroups(s[4..]).bytes;
      EncodeUnfold(bytes);
    }
  }

  // The two bytes of three digits keep the top four bits of the third; the byte of two digits keeps the
  // top two bits of the second.
  lemma DroppedBits(a: bv8, b: bv8, c: bv8)
    requires a < 64 && b < 64 && c < 64
    ensures var w := Pack(a, b, c, 0);
      Digit1(TempByte0(w)) == a && Digit2(TempByte0(w), TempByte1(w)) == b && Digit3(TempByte1(w), 0) == c & 60
  {
  }

  lemma DroppedBitsOfOne(a: bv8, b: bv8)
    requires a < 64 && b < 64
    ensures var w := Pack(a, b, 0, 0); Digit1(TempByte0(w)) == a && Digit2(TempByte0(w), 0) == b & 48
  {
  }

  lemma SymbolOfMasked(c: bv8)
    requires InAlphabet(c)
    ensures Value(c) < 64 && Value(c) & 60 < 64 && Value(c) & 48 < 64
    ensures Symbol(Value(c) & 60) == c <==> Value(c) & 3 == 0
    ensures Symbol(Value(c) & 48) == c <==> Value(c) & 15 == 0
  {
  }

  lemma PairTailBytes(q: seq<bv8>)
    requires |q| == 4 && InAlphabet(q[0]) && InAlphabet(q[1]) && InAlphabet(q[2])
    ensures var w := Pack(Value(q[0]), Value(q[1]), Value(q[2]), 0);
      DecodeTail(q, 1) == Ok([TempByte0(w), TempByte1(w)])
  {
  }

  lemma SingleTailBytes(q: seq<bv8>)
    requires |q| == 4 && InAlphabet(q[0]) && InAlphabet(q[1])
    ensures var w := Pack(Value(q[0]), Value(q[1]), 0, 0); DecodeTail(q, 2) == Ok([TempByte0(w)])
  {
  }

  lemma PairTailEncoded(c1: bv8, c2: bv8, c3: bv8)
    requires InAlphabet(c1) && InAlphabet(c2) && InAlphabet(c3)
    ensures var w := Pack(Value(c1), Value(c2), Value(c3), 0);
      (SymbolOfMasked(c3);
       EncodeTail([TempByte0(w), TempByte1(w)]) == [c1, c2, Symbol(Value(c3) & 60), PAD])
  {
    hide PairWord, SingleWord, Symbol, Value, InAlphabet, Pack, EncodeTail,
         TempByte0, TempByte1, Digit1, Digit2, Digit3, Digit4;
    ValueSymbol(c1); ValueSymbol(c2); ValueSymbol(c3);
    DroppedBits(Value(c1), Value(c2), Value(c3));
    var w := Pack(Value(c1), Value(c2), Value(c3), 0);
    TailSymbols([TempByte0(w), TempByte1(w)]);
  }

  lemma SingleTailEncoded(c1: bv8, c2: bv8)
    requires InAlphabet(c1) && InAlphabet(c2)
    ensures var w := Pack(Value(c1), Value(c2), 0, 0);
      (SymbolOfMasked(c2);
       EncodeTail([TempByte0(w)]) == [c1, Symbol(Value(c2) & 48), PAD, PAD])
  {
    hide PairWord, SingleWord, Symbol, Value, InAlphabet, Pack, EncodeTail,
         TempByte0, TempByte1, Digit1, Digit2, Digit3, Digit4;
    ValueSymbol(c1); ValueSymbol(c2);
    DroppedBitsOfOne(Value(c1), Value(c2));
    var w := Pack(Value(c1), Value(c2), 0, 0);
    TailSymbols([TempByte0(w)]);
  }

  lemma TailReencode(q: seq<bv8>, p: nat)
    requires 1 <= p <= 2 && |q| == 4 && PaddedText(q, p)
    ensures DecodeTail(q, p).Ok? && |DecodeTail(q, p).bytes| == 3 - p
    ensures EncodeTail(DecodeTail(q, p).bytes) == q <==>
      if p == 1 then Value(q[2]) & 3 == 0 else Value(q[1]) & 15 == 0
  {
    hide DecodeTail, EncodeTail, InAlphabet, Value, Symbol, Pack, TempByte0, TempByte1;
    assert forall i :: 0 <= i < 4 - p ==> q[..4 - p][i] == q[i];
    assert InAlphabet(q[0]) && InAlphabet(q[1]) && (p == 1 ==> InAlphabet(q[2]));
    if p == 1 {
      PairTailBytes(q);
      PairTailEncoded(q[0], q[1], q[2]);
      SymbolOfMasked(q[2]);
    } else {
      SingleTailBytes(q);
      SingleTailEncoded(q[0], q[1]);
      SymbolOfMasked(q[1]);
    }
  }

  lemma PaddedReencode(f: seq<bv8>, q: seq<bv8>)
    requires |f| % 4 == 0 && |q| == 4 && AllInAlphabet(f) && (PaddedText(q, 1) || PaddedText(q, 2))
    ensures 1 <= CountPad(q) <= 2 && Decode(f + q).Ok?
    ensures Encode(Decode(f + q).bytes) == f + q <==>
      if CountPad(q) == 1 then Value(q[2]) & 3 == 0 else Value(q[1]) & 15 == 0
  {
    hide InAlphabet, CountPad, DecodeTail, DecodeGroups, PaddedText, AllInAlphabet, Decode, Encode, EncodeTail, Value;
    LastBlock(q);
    DecodePadded(f, q);
    GroupsAccept(f);
    GroupsReencode(f);
    TailReencode(q, CountPad(q));
    var t := DecodeTail(q, CountPad(q)).bytes;
    EncodeAppend(DecodeGroups(f).bytes, t);
    EncodeShort(t);
    TailRoundTrip(t);
    assert (f + EncodeTail(t))[|f|..] == EncodeTail(t) && (f + q)[|f|..] == q;
  }

  /** Encoding an accepted text's bytes gives the text back if and only if its unused trailing bits are zero. */
  lemma ReencodeExactly(s: seq<bv8>)
    requires Decode(s).Ok?
    ensures |s| % 4 == 0
    ensures Encode(Decode(s).bytes) == s <==> TrailingBitsZero(s)
  {
    hide InAlphabet, CountPad, DecodeTail, DecodeGroups, PaddedText, AllInAlphabet, Decode, Encode, Value;
    AcceptsExactly(s);
    if |s| == 0 {
      EmptyDecodes(s);
    } else {
      var (f, q) := (s[..|s| - 4], s[|s| - 4..]);
      assert s == f + q;
      LastBlock(q);
      AcceptsBlocks(f, q);
      if PaddedText(q, 0) {
        DecodeUnpadded(f, q);
        GroupsReencode(s);
      } else {
        PaddedReencode(f, q);
      }
    }
  }

  lemma EmptyDecodes(s: seq<bv8>)
    requires |s| == 0
    ensures Decode(s) == Ok([]) && Encode([]) == s && DecodeGroups(s) == Ok([])
  {
  }

  // ---------- The buffer loops ----------

  // The body of the loop over whole blocks.
  method PutBlock(encoded: array<bv8>, cur: nat, t1: bv8, t2: bv8, t3: bv8)
    requires cur + 4 <= encoded.Length
    modifies encoded
    ensures |EncodeBlock(t1, t2, t3)| == 4
    ensures encoded[..] == old(encoded[..cur]) + EncodeBlock(t1, t2, t3) + old(encoded[cur + 4..])
  {
    hide EncodeTable0, EncodeTable1;
    encoded[cur] := EncodeTable0(t1);
    encoded[cur + 1] := EncodeTable1(((t1 & 0x03) << 4) | ((t2 >> 4) & 0x0F));
    encoded[cur + 2] := EncodeTable1(((t2 & 0x0F) << 2) | ((t3 >> 6) & 0x03));
    encoded[cur + 3] := EncodeTable1(t3);
  }

  // The switch on the number of bytes left over; the padding is already in the buffer.
  method PutTail(encoded: array<bv8>, cur: nat, rest: seq<bv8>)
    requires |rest| < 3 && encoded.Length == cur + |EncodeTail(rest)|
    requires forall k :: cur <= k < encoded.Length ==> encoded[k] == PAD
    modifies encoded
    ensures encoded[..] == old(encoded[..cur]) + EncodeTail(rest)
  {
    hide EncodeTable0, EncodeTable1;
    if |rest| == 1 {
      var t1 := rest[0];
      encoded[cur] := EncodeTable0(t1);
      encoded[cur + 1] := EncodeTable1((t1 & 0x03) << 4);
    } else if |rest| == 2 {
      var t1, t2 := rest[0], rest[1];
      encoded[cur] := EncodeTable0(t1);
      encoded[cur + 1] := EncodeTable1(((t1 & 0x03) << 4) | ((t2 >> 4) & 0x0F));
      encoded[cur + 2] := EncodeTable1((t2 & 0x0F) << 2);
    }
  }

  method EncodeInto(bytes: seq<bv8>) returns (encoded: array<bv8>)
    ensures fresh(encoded) && encoded[..] == Encode(bytes)
  {
    hide EncodeBlock, EncodeTail, Encode;
    var size := (|bytes| / 3 + if |bytes| % 3 > 0 then 1 else 0) * 4;
    encoded := new bv8[size](_ => PAD);
    EncodeLength(bytes);
    var pos, cur, i := 0, 0, |bytes| / 3;
    assert bytes[0..] == bytes;
    while i != 0
      invariant 0 <= i && pos == 3 * (|bytes| / 3 - i) && cur == 4 * (|bytes| / 3 - i)
      invariant encoded[..cur] + Encode(bytes[pos..]) == Encode(bytes)
      invariant forall k :: cur <= k < size ==> encoded[k] == PAD
    {
      ghost var done := encoded[..cur];
      EncodeUnfold(bytes[pos..]);
      assert bytes[pos..][3..] == bytes[pos + 3..];
      PutBlock(encoded, cur, bytes[pos], bytes[pos + 1], bytes[pos + 2]);
      assert encoded[..cur + 4] == done + EncodeBlock(bytes[pos], bytes[pos + 1], bytes[pos + 2]);
      pos, cur, i := pos + 3, cur + 4, i - 1;
    }
    EncodeShort(bytes[pos..]);
    EncodeLength(bytes[pos..]);
    PutTail(encoded, cur, bytes[pos..]);
  }

  // std::count over the last four characters.
  method CountLastFour(text: seq<bv8>) returns (n: nat)
    requires |text| >= 4
    ensures n == CountPad(text[|text| - 4..])
  {
    var q := text[|text| - 4..];
    n := 0;
    var k := 4;
    while k != 0
      invariant 0 <= k <= 4 && n == CountPad(q[k..])
    {
      k := k - 1;
      assert q[k..][1..] == q[k + 1..];
      if q[k] == PAD { n := n + 1; }
    }
    assert q[0..] == q;
  }

  lemma DecodeUnfoldAt(s: seq<bv8>, pos: nat)
    requires pos + 4 <= |s| && |s[pos..]| % 4 == 0
    ensures var w := Word(s[pos], s[pos + 1], s[pos + 2], s[pos + 3]);
      DecodeGroups(s[pos..]) == if w >= BAD_CHAR then Err(InvalidCharacter)
                                else Append(Ok([TempByte0(w), TempByte1(w), TempByte2(w)]), DecodeGroups(s[pos + 4..]))
  {
  }

  lemma AppendMore(x: seq<bv8>, y: seq<bv8>, d: Decoded)
    ensures Append(Ok(x), Append(Ok(y), d)) == Append(Ok(x + y), d)
  {
  }

  lemma AppendNothing(d: Decoded)
    ensures Append(d, Ok([])) == d && Append(Ok([]), d) == d
  {
  }

  lemma AppendError(x: seq<bv8>)
    ensures Append(Ok(x), Err(InvalidCharacter)) == Err(InvalidCharacter)
  {
  }

  method PutWord(decoded: array<bv8>, cur: nat, temp: bv32)
    requires cur + 3 <= decoded.Length
    modifies decoded
    ensures decoded[..cur + 3] == old(decoded[..cur]) + [TempByte0(temp), TempByte1(temp), TempByte2(temp)]
  {
    hide TempByte0, TempByte1, TempByte2;
    decoded[cur] := TempByte0(temp);
    decoded[cur + 1] := TempByte1(temp);
    decoded[cur + 2] := TempByte2(temp);
  }

  // The loop over the blocks without padding; it stops at the first bad block.
  method DecodeBlocks(text: seq<bv8>, blocks: nat, decoded: array<bv8>) returns (ok: bool)
    requires 4 * blocks <= |text| && 3 * blocks <= decoded.Length
    modifies decoded
    ensures DecodeGroups(text[..4 * blocks]) == if ok then Ok(decoded[..3 * blocks]) else Err(InvalidCharacter)
  {
    hide Word, TempByte0, TempByte1, TempByte2, DecodeGroups, Append;
    ghost var whole := text[..4 * blocks];
    var pos, cur, i := 0, 0, blocks;
    assert whole[0..] == whole && decoded[..0] == [];
    AppendNothing(DecodeGroups(whole));
    while i != 0
      invariant 0 <= i <= blocks && pos == 4 * (blocks - i) && cur == 3 * (blocks - i)
      invariant DecodeGroups(whole) == Append(Ok(decoded[..cur]), DecodeGroups(whole[pos..]))
    {
      var temp := Word(text[pos], text[pos + 1], text[pos + 2], text[pos + 3]);
      DecodeUnfoldAt(whole, pos);
      if temp >= BAD_CHAR {
        AppendError(decoded[..cur]);
        assert DecodeGroups(whole) == Err(InvalidCharacter);
        return false;
      }
      AppendMore(decoded[..cur], [TempByte0(temp), TempByte1(temp), TempByte2(temp)], DecodeGroups(whole[pos + 4..]));
      PutWord(decoded, cur, temp);
      pos, cur, i := pos + 4, cur + 3, i - 1;
    }
    EmptyDecodes(whole[pos..]);
    AppendNothing(Ok(decoded[..cur]));
    ok := true;
  }

  // The switch on the number of padding signs.
  method DecodeLast(q: seq<bv8>, padding: nat, cur: nat, decoded: array<bv8>) returns (ok: bool)
    requires |q| == 4 && 1 <= padding <= 2 && decoded.Length == cur + 3 - padding
    modifies decoded
    ensures decoded[..cur] == old(decoded[..cur])
    ensures DecodeTail(q, padding) == if ok then Ok(decoded[cur..]) else Err(InvalidCharacter)
  {
    hide PairWord, SingleWord, TempByte0, TempByte1;
    if padding == 1 {
      var temp := PairWord(q[0], q[1], q[2]);
      if temp >= BAD_CHAR { return false; }
      decoded[cur], decoded[cur + 1] := TempByte0(temp), TempByte1(temp);
    } else {
      var temp := SingleWord(q[0], q[1]);
      if temp >= BAD_CHAR { return false; }
      decoded[cur] := TempByte0(temp);
    }
    ok := true;
  }

  method DecodeInto(text: seq<bv8>) returns (status: Status, decoded: array<bv8>)
    ensures fresh(decoded)
    ensures match Decode(text)
      case Ok(bytes) => status == Done && decoded[..] == bytes
      case Err(e) => status == Thrown(e)
  {
    hide DecodeTail, DecodeGroups, CountPad;
    decoded := new bv8[0];
    if |text| == 0 { return Done, decoded; }
    if |text| % 4 != 0 { return Thrown(SizeNotMultipleOfFour), decoded; }
    var padding := CountLastFour(text);
    if padding > 2 { return Thrown(TooMuchPadding), decoded; }
    decoded := new bv8[|text| * 3 / 4 - padding](_ => 0x2E);
    var blocks := |text| / 4 - if padding != 0 then 1 else 0;
    var ok := DecodeBlocks(text, blocks, decoded);
    assert text[..4 * blocks] == if padding == 0 then text else text[..|text| - 4];
    if ok && padding != 0 {
      ghost var front := decoded[..3 * blocks];
      ok := DecodeLast(text[|text| - 4..], padding, 3 * blocks, decoded);
      assert decoded[..] == front + decoded[3 * blocks..];
    }
    if !ok { return Thrown(InvalidCharacter), decoded; }
    assert padding == 0 ==> decoded[..3 * blocks] == decoded[..];
    status := Done;
  }
}
