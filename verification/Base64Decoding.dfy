/** What decoding makes of every text, bit by bit, with the padding bits it ignores and the errors it reports. */
module Base64Decoding {
  import opened Base64

  // ---------- The bits ----------

  // The bits of the digit before p padding signs that a byte uses.
  function UsedBits(p: nat): (n: nat)
    requires 1 <= p <= 2
  {
    if p == 1 then 4 else 2
  }

  function Used(v: bv8, p: nat): bv8
    requires 1 <= p <= 2
  {
    if p == 1 then v & 60 else v & 48
  }

  lemma UsedBit(c: bv8, p: nat, k: nat)
    requires InAlphabet(c) && 1 <= p <= 2 && k < UsedBits(p)
    ensures Used(Value(c), p) < 64 && Value(c) < 64
    ensures DigitBit(Used(Value(c), p), k) == DigitBit(Value(c), k)
  {
    hide Value, InAlphabet;
    ValueSymbol(c);
    MaskedBit(Value(c), p, k);
  }

  lemma MaskedBit(v: bv8, p: nat, k: nat)
    requires v < 64 && 1 <= p <= 2 && k < UsedBits(p)
    ensures Used(v, p) < 64 && DigitBit(Used(v, p), k) == DigitBit(v, k)
  {
  }

  lemma UsedIsDigit(c: bv8, p: nat)
    requires InAlphabet(c) && 1 <= p <= 2
    ensures Used(Value(c), p) < 64
  {
    hide Value, InAlphabet;
    UsedBit(c, p, 0);
  }

  // The tail and the encoding of its bytes differ only in the digit before the padding.
  lemma TailEncodedAgain(q: seq<bv8>, p: nat)
    requires 1 <= p <= 2 && |q| == 4 && PaddedText(q, p)
    ensures DecodeTail(q, p).Ok? && |DecodeTail(q, p).bytes| == 3 - p
    ensures InAlphabet(q[3 - p]) && Used(Value(q[3 - p]), p) < 64
    ensures EncodeTail(DecodeTail(q, p).bytes) == q[3 - p := Symbol(Used(Value(q[3 - p]), p))]
  {
    hide DecodeTail, EncodeTail, InAlphabet, Value, Symbol, Pack, TempByte0, TempByte1;
    TailReencode(q, p);
    assert forall i | 0 <= i < 4 - p :: q[..4 - p][i] == q[i];
    assert InAlphabet(q[0]) && InAlphabet(q[1]) && (p == 1 ==> InAlphabet(q[2]));
    UsedIsDigit(q[3 - p], p);
    if p == 1 {
      PairTailBytes(q);
      PairTailEncoded(q[0], q[1], q[2]);
    } else {
      SingleTailBytes(q);
      SingleTailEncoded(q[0], q[1]);
    }
  }

  // Bit n of the bytes is a bit of the digit it falls into.
  predicate DecodedBit(s: seq<bv8>, x: seq<bv8>, n: nat) {
    n / 6 < |s| && InAlphabet(s[n / 6]) && DataBit(x, n) == DigitBit(Value(s[n / 6]), n % 6)
  }

  lemma UnpaddedBits(s: seq<bv8>, n: nat)
    requires |s| % 4 == 0 && DecodeGroups(s).Ok? && n < 8 * |DecodeGroups(s).bytes|
    ensures DecodedBit(s, DecodeGroups(s).bytes, n)
  {
    hide Encode, DecodeGroups, DataBit, DigitBit, InAlphabet, Value;
    GroupsReencode(s);
    EncodeIsBitStream(DecodeGroups(s).bytes, n);
  }

  // A text with a padded block at its end.
  lemma PaddedBits(f: seq<bv8>, q: seq<bv8>, p: nat, n: nat)
    requires 1 <= p <= 2 && |f| % 4 == 0 && |q| == 4 && AllInAlphabet(f) && PaddedText(q, p)
    ensures Decode(f + q).Ok? && |Decode(f + q).bytes| == |f| / 4 * 3 + 3 - p
    ensures n < 8 * |Decode(f + q).bytes| ==> DecodedBit(f + q, Decode(f + q).bytes, n)
  {
    hide InAlphabet, CountPad, DecodeTail, DecodeGroups, PaddedText, AllInAlphabet, Decode, Encode, EncodeTail, Value,
         DataBit, DigitBit, Symbol, Used;
    LastBlock(q);
    PaddingIs(q, p);
    DecodePadded(f, q);
    GroupsAccept(f);
    GroupsReencode(f);
    TailEncodedAgain(q, p);
    var (x, t) := (DecodeGroups(f).bytes, DecodeTail(q, p).bytes);
    EncodeAppend(x, t);
    EncodeShort(t);
    if n < 8 * |x + t| {
      var c := q[3 - p];
      var e := f + q[3 - p := Symbol(Used(Value(c), p))];
      assert Encode(x + t) == e;
      EncodeIsBitStream(x + t, n);
      if n / 6 == |f| + 3 - p {
        SymbolValue(Used(Value(c), p));
        UsedBit(c, p, n % 6);
      } else {
        assert e[n / 6] == (f + q)[n / 6];
      }
    }
  }

  lemma PaddingIs(q: seq<bv8>, p: nat)
    requires |q| == 4 && 1 <= p <= 2 && PaddedText(q, p)
    ensures CountPad(q) == p
  {
    hide CountPad, InAlphabet, PaddedText, AllInAlphabet;
    LastBlock(q);
  }

  /** Decoding an accepted text ending in p padding signs gives three bytes for four characters less p, whose bits are
      the 6-bit digits of the characters one after the other. The bits of the last digit that are left are ignored. */
  lemma DecodeIsBitStream(s: seq<bv8>, p: nat, n: nat)
    requires |s| % 4 == 0 && p <= 2 && PaddedText(s, p)
    ensures Decode(s).Ok? && |Decode(s).bytes| == |s| / 4 * 3 - p
    ensures n < 8 * |Decode(s).bytes| ==> DecodedBit(s, Decode(s).bytes, n)
  {
    hide InAlphabet, CountPad, DecodeTail, DecodeGroups, PaddedText, AllInAlphabet, Decode, DecodedBit;
    if |s| == 0 {
      EmptyDecodes(s);
      NoPadding(s, p);
    } else {
      var (f, q) := (s[..|s| - 4], s[|s| - 4..]);
      assert s == f + q;
      PaddedSplit(f, q, p);
      if p == 0 {
        LastBlock(q);
        DecodeUnpadded(f, q);
        AllInAlphabetConcat(f, q);
        LastUnpadded(q);
        GroupsAccept(s);
        if n < 8 * |Decode(s).bytes| { UnpaddedBits(s, n); }
      } else {
        PaddedBits(f, q, p, n);
      }
    }
  }

  lemma NoPadding(s: seq<bv8>, p: nat)
    requires |s| == 0 && PaddedText(s, p)
    ensures p == 0
  {
  }

  lemma LastUnpadded(q: seq<bv8>)
    requires PaddedText(q, 0)
    ensures AllInAlphabet(q)
  {
    assert q[..|q|] == q;
  }

  // ---------- The errors ----------

  // All of four characters but one, m, are padding signs.
  predicate PadsExcept(q: seq<bv8>, m: nat)
    requires |q| == 4
  {
    forall i | 0 <= i < 4 && i != m :: q[i] == PAD
  }

  predicate ThreePads(q: seq<bv8>)
    requires |q| == 4
  {
    PadsExcept(q, 0) || PadsExcept(q, 1) || PadsExcept(q, 2) || PadsExcept(q, 3)
  }

  lemma CountThree(q: seq<bv8>)
    requires |q| == 4
    ensures CountPad(q) > 2 <==> ThreePads(q)
  {
    hide CountPad;
    CountPadFour(q[0], q[1], q[2], q[3]);
    assert q == [q[0], q[1], q[2], q[3]];
  }

  /** A text is rejected for its size, for more than two padding signs among its last four characters, or for a
      character that is out of place, tested in this order. */
  lemma ErrorsExactly(s: seq<bv8>)
    ensures Decode(s) == Err(SizeNotMultipleOfFour) <==> |s| % 4 != 0
    ensures Decode(s) == Err(TooMuchPadding) <==> |s| % 4 == 0 && s != [] && ThreePads(s[|s| - 4..])
    ensures Decode(s) == Err(InvalidCharacter) <==>
      |s| % 4 == 0 && s != [] && !ThreePads(s[|s| - 4..]) && !WellFormed(s)
  {
    hide InAlphabet, CountPad, DecodeTail, DecodeGroups, ThreePads, WellFormed;
    AcceptsExactly(s);
    if |s| % 4 == 0 && s != [] {
      CountThree(s[|s| - 4..]);
      GroupsError(s);
      GroupsError(s[..|s| - 4]);
      TailError(s[|s| - 4..], 1);
      TailError(s[|s| - 4..], 2);
    }
  }

  lemma {:induction false} GroupsError(s: seq<bv8>)
    requires |s| % 4 == 0
    ensures DecodeGroups(s).Err? ==> DecodeGroups(s) == Err(InvalidCharacter)
  {
    hide Word, TempByte0, TempByte1, TempByte2;
    if |s| > 0 { GroupsError(s[4..]); }
  }

  lemma TailError(q: seq<bv8>, p: nat)
    requires |q| == 4 && 1 <= p <= 2
    ensures DecodeTail(q, p).Err? ==> DecodeTail(q, p) == Err(InvalidCharacter)
  {
    hide PairWord, SingleWord, TempByte0, TempByte1;
  }
}
