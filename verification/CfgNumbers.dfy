/** Integers in the configuration file: std::stoi, and the comma-separated list of a route layer. */
module CfgNumbers {
  import opened Options
  import opened CfgParser

  const INT_SPAN: int := 0x1_0000_0000

  predicate IsInt(n: int) { -(INT_SPAN / 2) <= n < INT_SPAN / 2 }

  predicate IsDigit(c: char) { '0' <= c <= '9' }

  // The number of digits at the start.
  function DigitsAt(s: string): (n: nat)
    ensures n <= |s| && forall i | 0 <= i < n :: IsDigit(s[i])
  {
    if s == [] || !IsDigit(s[0]) then 0 else 1 + DigitsAt(s[1..])
  }

  function Magnitude(digits: string): nat
    requires forall i | 0 <= i < |digits| :: IsDigit(digits[i])
  {
    if digits == [] then 0
    else
      assert IsDigit(digits[|digits| - 1]);
      10 * Magnitude(digits[..|digits| - 1]) + (digits[|digits| - 1] as int - '0' as int)
  }

  // None where stoi throws: no digit, or out of range. What follows the digits is ignored.
  function Stoi(s: string): (r: Option<int>)
    ensures r.Some? ==> IsInt(r.value)
  {
    var t := LeftTrim(s);
    var signed := t != [] && (t[0] == '-' || t[0] == '+');
    var u := if signed then t[1..] else t;
    var digits := u[..DigitsAt(u)];
    var n := if signed && t[0] == '-' then -(Magnitude(digits) as int) else Magnitude(digits);
    if digits == [] || !IsInt(n) then None else Some(n)
  }

  function Digit(n: nat): (c: char)
    requires n < 10
    ensures IsDigit(c)
  {
    ('0' as int + n) as char
  }

  function Decimal(n: nat): (s: string)
    ensures s != [] && forall i | 0 <= i < |s| :: IsDigit(s[i])
  {
    if n < 10 then [Digit(n)] else Decimal(n / 10) + [Digit(n % 10)]
  }

  // std::to_string.
  function Show(n: int): string { if n < 0 then "-" + Decimal(-n) else Decimal(n) }

  lemma {:induction false} MagnitudeOfDecimal(n: nat)
    ensures Magnitude(Decimal(n)) == n
  {
    if n >= 10 {
      MagnitudeOfDecimal(n / 10);
      assert Decimal(n)[..|Decimal(n)| - 1] == Decimal(n / 10);
    } else {
      assert Decimal(n)[..0] == [];
    }
  }

  lemma {:induction false} AllDigits(s: string)
    requires forall i | 0 <= i < |s| :: IsDigit(s[i])
    ensures DigitsAt(s) == |s|
  {
    if s != [] { AllDigits(s[1..]); }
  }

  // stoi of a sign and digits.
  lemma StoiOfDigits(sign: string, d: string)
    requires sign == "" || sign == "-"
    requires d != [] && forall i | 0 <= i < |d| :: IsDigit(d[i])
    ensures var n := if sign == "-" then -(Magnitude(d) as int) else Magnitude(d);
      Stoi(sign + d) == if IsInt(n) then Some(n) else None
  {
    hide Magnitude, DigitsAt;
    var t := sign + d;
    assert LeftTrim(t) == t;
    AllDigits(d);
    assert IsDigit(d[0]) && d[..|d|] == d;
    assert (if sign == "-" then t[1..] else t) == d;
  }

  lemma StoiOfShow(n: int)
    requires IsInt(n)
    ensures Stoi(Show(n)) == Some(n)
  {
    hide Stoi, Decimal, Magnitude;
    var m := if n < 0 then -n else n;
    MagnitudeOfDecimal(m);
    StoiOfDigits(if n < 0 then "-" else "", Decimal(m));
    assert "" + Decimal(m) == Decimal(m);
  }

  // ---------- The list of a route layer ----------

  // The numbers of the list s after those read so far.
  function LayersAfter(read: seq<int>, s: string): Option<seq<int>>
    decreases |s|
  {
    var pos := Find(s, ',');
    if pos < |s| then
      var next :- Stoi(Trim(s[..pos]));
      LayersAfter(read + [next], s[pos + 1..])
    else if Trim(s) == [] then Some(read)
    else
      var last :- Stoi(Trim(s));
      Some(read + [last])
  }

  function LayerList(s: string): Option<seq<int>> { LayersAfter([], s) }

  method ParseLayers(layers: string) returns (indices: Option<seq<int>>)
    ensures indices == LayerList(layers)
  {
    hide Stoi, Trim, Find;
    var list: seq<int> := [];
    var lastPos := 0;
    var pos := Find(layers, ',');
    assert layers[0..] == layers;
    while pos < |layers|
      invariant lastPos <= |layers| && pos == lastPos + Find(layers[lastPos..], ',')
      invariant LayerList(layers) == LayersAfter(list, layers[lastPos..])
      decreases |layers| - lastPos
    {
      var vL := Stoi(Trim(layers[lastPos..pos]));
      assert layers[lastPos..][..pos - lastPos] == layers[lastPos..pos];
      assert layers[lastPos..][pos - lastPos + 1..] == layers[pos + 1..];
      if vL.None? { return None; }
      list := list + [vL.value];
      lastPos := pos + 1;
      pos := lastPos + Find(layers[lastPos..], ',');
    }
    TrimNothing();
    if lastPos < |layers| {
      var lastV := Trim(layers[lastPos..]);
      if lastV != [] {
        var last := Stoi(lastV);
        if last.None? { return None; }
        list := list + [last.value];
      }
    }
    indices := Some(list);
  }

  lemma TrimNothing()
    ensures Trim([]) == []
  {
  }

  // The list as written in a cfg file, any white space around the numbers.
  datatype Item = Item(a: string, n: int, b: string) {
    predicate Valid() { Blank(a) && Blank(b) && IsInt(n) }
  }

  function ListWritten(items: seq<Item>): string {
    if items == [] then []
    else if |items| == 1 then items[0].a + Show(items[0].n) + items[0].b
    else items[0].a + Show(items[0].n) + items[0].b + [','] + ListWritten(items[1..])
  }

  function Numbers(items: seq<Item>): (r: seq<int>)
    ensures |r| == |items| && forall i | 0 <= i < |items| :: r[i] == items[i].n
  {
    if items == [] then [] else [items[0].n] + Numbers(items[1..])
  }

  lemma ShownItem(item: Item)
    requires item.Valid()
    ensures var text := item.a + Show(item.n) + item.b;
      ',' !in text && Trim(text) == Show(item.n) != [] && Stoi(Trim(text)) == Some(item.n)
  {
    var s := Show(item.n);
    assert Trimmed(s);
    TrimStrips(item.a, s, item.b);
    StoiOfShow(item.n);
    BlankHasNo(item.a, ',');
    BlankHasNo(item.b, ',');
  }

  lemma LastItem(read: seq<int>, text: string, n: int)
    requires ',' !in text && Trim(text) != [] && Stoi(Trim(text)) == Some(n)
    ensures LayersAfter(read, text) == Some(read + [n])
  {
  }

  lemma {:induction false} ReadItems(read: seq<int>, items: seq<Item>)
    requires forall x | x in items :: x.Valid()
    ensures LayersAfter(read, ListWritten(items)) == Some(read + Numbers(items))
    decreases |items|
  {
    hide Stoi, Trim, Show;
    TrimNothing();
    assert read + [] == read;
    if items != [] {
      var text := items[0].a + Show(items[0].n) + items[0].b;
      assert items[0] in items;
      ShownItem(items[0]);
      assert read + Numbers(items) == read + [items[0].n] + Numbers(items[1..]);
      if |items| > 1 {
        ReadItems(read + [items[0].n], items[1..]);
        FindFirst(text, ',', ListWritten(items[1..]));
        assert ListWritten(items) == text + [','] + ListWritten(items[1..]);
        assert ListWritten(items)[..|text|] == text && ListWritten(items)[|text| + 1..] == ListWritten(items[1..]);
      } else {
        LastItem(read, text, items[0].n);
        assert items[1..] == [] && read + [items[0].n] + Numbers([]) == read + [items[0].n];
      }
    }
  }

  /** A written list is read back. */
  lemma LayerListRoundTrip(items: seq<Item>)
    requires forall x | x in items :: x.Valid()
    ensures LayerList(ListWritten(items)) == Some(Numbers(items))
  {
    hide LayersAfter, ListWritten, Numbers;
    ReadItems([], items);
    assert [] + Numbers(items) == Numbers(items);
  }
}
