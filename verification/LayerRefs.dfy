/** The `from` of shortcut, sam and channels layers in yolo.cpp: signed numbers mixed with 32-bit unsigned ones,
    and the index rule of route layers. */
module LayerRefs {
  import opened Options
  import opened CfgNumbers

  // A value converted to uint, and a uint converted to int.
  function Uint(n: int): (u: nat)
    ensures u < INT_SPAN
  {
    n % INT_SPAN
  }

  function Int(u: nat): (n: int)
    requires u < INT_SPAN
    ensures IsInt(n) && Uint(n) == u
  {
    if u < INT_SPAN / 2 then u else u - INT_SPAN
  }

  // The lines before the layer is added: block i, with n outputs so far. None when an assert fails.
  function Resolve(i: nat, n: nat, from: int): Option<nat>
    requires i < INT_SPAN && IsInt(from)
  {
    var f := if from > 0 then Int(Uint(Uint(from - i) + 1)) else from;
    var k := Uint(i + f - 1);
    if Uint(i - 2) < n && k < n && k < Uint(i - 2) then Some(k) else None
  }

  // idxLayers of a route layer.
  function RouteIndex(n: nat, vL: int): Option<nat> {
    var k := if vL < 0 then n + vL else vL;
    if 0 <= k < n then Some(k) else None
  }

  lemma UintSmall(n: int)
    requires 0 <= n < INT_SPAN
    ensures Uint(n) == n
  {
  }

  lemma UintNegative(n: int)
    requires -INT_SPAN <= n < 0
    ensures Uint(n) == n + INT_SPAN
  {
  }

  // The round trip through unsigned arithmetic makes a positive `from` an index again.
  lemma PositiveFrom(i: nat, from: int)
    requires i < INT_SPAN && IsInt(from) && from > 0
    ensures Uint(i + Int(Uint(Uint(from - i) + 1)) - 1) == from
  {
    var f := Int(Uint(Uint(from - i) + 1));
    var a := Uint(from - i);
    if from >= i { UintSmall(from - i); } else { UintNegative(from - i); }
    if a + 1 == INT_SPAN { assert Uint(a + 1) == 0; } else { UintSmall(a + 1); }
  }

  /** What the wrapping arithmetic accepts, in plain integers: at most one earlier block without an output, and an
      output below index i - 2. The two kinds of `from` are an index and a distance. */
  lemma ResolveExactly(i: nat, n: nat, from: int)
    requires i < INT_SPAN && IsInt(from) && n <= i
    ensures Resolve(i, n, from)
         == if i < 2 || n < i - 1 then None
            else if 0 < from < i - 2 then Some(from)
            else if 1 - i <= from <= -2 then Some(i - 1 + from)
            else None
  {
    if i < 2 { UintNegative(i - 2); } else { UintSmall(i - 2); }
    if from > 0 {
      PositiveFrom(i, from);
    } else if i + from - 1 >= 0 {
      UintSmall(i + from - 1);
    } else {
      UintNegative(i + from - 1);
    }
  }

  /** With one block before it that has no output, an accepted `from` means what it means to a route layer;
      a route layer also accepts the last output, and 0. */
  lemma SameRuleAsRoute(i: nat, from: int)
    requires 0 < i < INT_SPAN && IsInt(from)
    ensures var r := Resolve(i, i - 1, from);
      r.Some? <==> RouteIndex(i - 1, from).Some? && from != 0 && RouteIndex(i - 1, from).value < i - 2
    ensures Resolve(i, i - 1, from).Some? ==> Resolve(i, i - 1, from) == RouteIndex(i - 1, from)
  {
    ResolveExactly(i, i - 1, from);
  }

  /** Without such a block, a negative `from` means the output one before the route layer's. */
  lemma OffByOneWithoutHeader(i: nat, from: int)
    requires i < INT_SPAN && IsInt(from) && from < 0 && Resolve(i, i, from).Some?
    ensures RouteIndex(i, from) == Some(Resolve(i, i, from).value + 1)
  {
  }
}
