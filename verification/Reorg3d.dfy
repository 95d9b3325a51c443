/** reorg_layer.cpp: the `reorg3d` branch, four strided slices one after the other along the batch axis. */
module Reorg3d {
  import opened Options
  import opened GridArithmetic
  import opened DenseTensor
  import Reorg

  // Where slice k starts: (0, 0), (0, 1), (1, 0), (1, 1).
  function StartOf(k: nat): seq<nat> { [0, 0, k / 2, k % 2] }

  function SizeAll(dims: seq<nat>, s: nat): seq<nat>
    requires |dims| == 4 && s > 0
  {
    [dims[0], dims[1], dims[2] / s, dims[3] / s]
  }

  function StrideAll(s: nat): seq<nat> { [1, 1, s, s] }

  ghost predicate Buildable(dims: seq<nat>, s: nat)
    requires |dims| == 4 && s > 0
  {
    forall k: nat | k < 4 :: Sliceable(dims, StartOf(k), SizeAll(dims, s), StrideAll(s))
  }

  ghost function SliceData<T>(t: Dense<T>, s: nat, k: nat): (r: seq<T>)
    requires t.Valid() && |t.dims| == 4 && s > 0 && Buildable(t.dims, s) && k < 4
    ensures |r| == Volume(SizeAll(t.dims, s))
  {
    Slice(t, StartOf(k), SizeAll(t.dims, s), StrideAll(s)).data
  }

  // None when a slice would read outside the tensor.
  ghost function Reorg3dLayer<T>(t: Dense<T>, s: nat): Option<Dense<T>>
    requires t.Valid() && |t.dims| == 4 && s > 0
  {
    if !Buildable(t.dims, s) then None
    else
      Some(Dense([4 * t.dims[0], t.dims[1], t.dims[2] / s, t.dims[3] / s],
                 SliceData(t, s, 0) + SliceData(t, s, 1) + SliceData(t, s, 2) + SliceData(t, s, 3)))
  }

  // ---------- Which elements are taken ----------

  predicate InSlices(k: nat, i: nat, j: nat, H: nat, W: nat, s: nat)
    requires s > 0
  {
    k < 4 && i < H / s && j < W / s
  }

  // The row and column of element (i, j) of slice k.
  function Picked(k: nat, i: nat, j: nat, s: nat): (nat, nat) { (k / 2 + i * s, k % 2 + j * s) }

  lemma StridedIndex(k: nat, n: nat, c: nat, i: nat, j: nat, s: nat)
    ensures Strided(StartOf(k), [n, c, i, j], StrideAll(s)) == [n, c, Picked(k, i, j, s).0, Picked(k, i, j, s).1]
  {
  }

  lemma StridedStays(d: nat, b: nat, i: nat, s: nat)
    requires b < 2 <= s && i < d / s
    ensures b + i * s < d
  {
    DivMod(d, s);
    MulMono(i + 1, d / s, s);
  }

  /** The layer can be built exactly when the stride is at least 2. */
  lemma Reorg3dAccepts<T>(t: Dense<T>, s: nat)
    requires t.Valid() && |t.dims| == 4 && s > 0 && forall k | 0 <= k < 4 :: t.dims[k] >= 1
    ensures Reorg3dLayer(t, s).Some? <==> s >= 2
  {
    hide Strided;
    var dims := t.dims;
    if s == 1 {
      var idx: seq<nat> := [0, 0, 0, dims[3] - 1];
      StridedIndex(1, 0, 0, 0, dims[3] - 1, 1);
      assert InDims(SizeAll(dims, 1), idx) && !InDims(dims, Strided(StartOf(1), idx, StrideAll(1)));
      assert !Sliceable(dims, StartOf(1), SizeAll(dims, 1), StrideAll(1));
    } else {
      forall k: nat | k < 4 ensures Sliceable(dims, StartOf(k), SizeAll(dims, s), StrideAll(s)) {
        forall idx | InDims(SizeAll(dims, s), idx) ensures InDims(dims, Strided(StartOf(k), idx, StrideAll(s))) {
          assert idx == [idx[0], idx[1], idx[2], idx[3]];
          StridedIndex(k, idx[0], idx[1], idx[2], idx[3], s);
          StridedStays(dims[2], k / 2, idx[2], s);
          StridedStays(dims[3], k % 2, idx[3], s);
        }
      }
    }
  }

  /** Slice k is the k-th part of the result. */
  lemma PartMoves<T>(t: Dense<T>, s: nat, k: nat, n: nat, c: nat, i: nat, j: nat)
    requires t.Valid() && |t.dims| == 4 && s > 0 && Reorg3dLayer(t, s).Some?
    requires n < t.dims[0] && c < t.dims[1] && InSlices(k, i, j, t.dims[2], t.dims[3], s)
    ensures var (r, size, y) := (Reorg3dLayer(t, s).value, SizeAll(t.dims, s), Picked(k, i, j, s));
      var (p, q) := (Volume(size) * k + Flat(size, [n, c, i, j]), Flat(t.dims, [n, c, y.0, y.1]));
      p < |r.data| == 4 * Volume(size) && q < |t.data| && r.data[p] == t.data[q]
  {
    hide Volume, Flat, Strided, Slice;
    var size := SizeAll(t.dims, s);
    var idx := [n, c, i, j];
    StridedIndex(k, n, c, i, j, s);
    assert Sliceable(t.dims, StartOf(k), size, StrideAll(s));
    SliceTakes(t, StartOf(k), size, StrideAll(s), idx);
    FlatBound(size, idx);
    var V := Volume(size);
    assert V * k == if k == 0 then 0 else if k == 1 then V else if k == 2 then 2 * V else 3 * V;
  }

  // The position of an index in row-major order; b to d are the sizes of its last axes.
  function FourAxes(n: nat, b: nat, x: nat, c: nat, y: nat, d: nat, z: nat): nat { ((n * b + x) * c + y) * d + z }

  lemma FlatIs(dims: seq<nat>, n: nat, c: nat, i: nat, j: nat)
    requires |dims| == 4
    ensures Flat(dims, [n, c, i, j]) == FourAxes(n, dims[1], c, dims[2], i, dims[3], j)
  {
    hide Flat;
    Reorg.Flat4(dims, [n, c, i, j]);
  }

  /** The layer makes a tensor of shape [4 N, C, H / s, W / s]: element (k N + n, c, i, j) of it is element
      (n, c, i s + a, j s + b) of the input, where (a, b) is (0, 0), (0, 1), (1, 0) and (1, 1) for k from 0 to 3. */
  lemma Reorg3dExactly<T>(t: Dense<T>, s: nat, a: nat, b: nat, n: nat, c: nat, i: nat, j: nat)
    requires t.Valid() && |t.dims| == 4 && s > 0 && Reorg3dLayer(t, s).Some? && a < 2 && b < 2
    requires n < t.dims[0] && c < t.dims[1] && i < t.dims[2] / s && j < t.dims[3] / s
    ensures var (r, N, C, H, W) := (Reorg3dLayer(t, s).value, t.dims[0], t.dims[1], t.dims[2], t.dims[3]);
      var to := FourAxes((2 * a + b) * N + n, C, c, H / s, i, W / s, j);
      var from := FourAxes(n, C, c, H, i * s + a, W, j * s + b);
      && to < |r.data| && from < |t.data| && r.data[to] == t.data[from]
      && r.dims == [4 * N, C, H / s, W / s]
  {
    hide Flat, Volume, Slice, Buildable, FourAxes, SliceData;
    var (N, C, H, W) := (t.dims[0], t.dims[1], t.dims[2], t.dims[3]);
    var size := SizeAll(t.dims, s);
    PartMoves(t, s, 2 * a + b, n, c, i, j);
    PickedIs(a, b, i, j, s);
    FlatIs(size, n, c, i, j);
    FlatIs(t.dims, n, c, i * s + a, j * s + b);
    PartStart(2 * a + b, N, n, C, c, H / s, i, W / s, j);
  }

  lemma PickedIs(a: nat, b: nat, i: nat, j: nat, s: nat)
    requires a < 2 && b < 2
    ensures Picked(2 * a + b, i, j, s) == (i * s + a, j * s + b) && 2 * a + b < 4
  {
  }

  lemma PartStart(k: nat, N: nat, n: nat, C: nat, c: nat, h: nat, i: nat, w: nat, j: nat)
    ensures Volume([N, C, h, w]) * k + FourAxes(n, C, c, h, i, w, j) == FourAxes(k * N + n, C, c, h, i, w, j)
  {
    hide Volume;
    Reorg.Volume4(N, C, h, w);
    Spread(k * N, n, C, c);
    Spread(k * N * C, n * C + c, h, i);
    Spread(k * N * C * h, (n * C + c) * h + i, w, j);
    Turn(k, N, C, h, w);
  }

  lemma Spread(p: nat, q: nat, d: nat, r: nat)
    ensures (p + q) * d + r == p * d + (q * d + r)
  {
  }

  lemma Turn(k: nat, N: nat, C: nat, h: nat, w: nat)
    ensures k * N * C * h * w == N * C * h * w * k
  {
    MulAssoc(k, N, C);
    MulAssoc(k, N * C, h);
    MulAssoc(k, N * C * h, w);
  }

  /** No element is taken twice. */
  lemma PickedOnce(k: nat, i: nat, j: nat, k': nat, i': nat, j': nat, H: nat, W: nat, s: nat)
    requires s >= 2 && InSlices(k, i, j, H, W, s) && InSlices(k', i', j', H, W, s)
    requires Picked(k, i, j, s) == Picked(k', i', j', s)
    ensures k == k' && i == i' && j == j'
  {
    PairUnique(i, k / 2, i', k' / 2, s);
    PairUnique(j, k % 2, j', k' % 2, s);
  }

  ghost predicate Taken(y: nat, x: nat, H: nat, W: nat, s: nat)
    requires s > 0
  {
    exists k: nat, i: nat, j: nat :: InSlices(k, i, j, H, W, s) && Picked(k, i, j, s) == (y, x)
  }

  ghost predicate AllTaken(H: nat, W: nat, s: nat)
    requires s > 0
  {
    forall y: nat, x: nat | y < H && x < W :: Taken(y, x, H, W, s)
  }

  // A coordinate that no slice reaches along one axis.
  function Missed(d: nat, s: nat): nat
    requires d > 0
  {
    if s == 2 then d - 1 else if d > 2 then 2 else 0
  }

  lemma MissedPick(k: nat, i: nat, j: nat, H: nat, W: nat, s: nat)
    requires H >= 1 && W >= 1 && s >= 2 && (s > 2 || H % 2 == 1 || W % 2 == 1) && InSlices(k, i, j, H, W, s)
    ensures Picked(k, i, j, s) != if s > 2 || H % 2 == 1 then (Missed(H, s), 0) else (0, Missed(W, s))
  {
  }

  lemma SomethingLost(H: nat, W: nat, s: nat)
    requires H >= 1 && W >= 1 && s >= 2 && (s > 2 || H % 2 == 1 || W % 2 == 1)
    ensures !AllTaken(H, W, s)
  {
    hide Picked, InSlices;
    var (y, x) := if s > 2 || H % 2 == 1 then (Missed(H, s), 0) else (0, Missed(W, s));
    forall k: nat, i: nat, j: nat | InSlices(k, i, j, H, W, s) ensures Picked(k, i, j, s) != (y, x) {
      MissedPick(k, i, j, H, W, s);
    }
    assert !Taken(y, x, H, W, s);
  }

  lemma EvenTaken(H: nat, W: nat, y: nat, x: nat)
    requires H % 2 == 0 && W % 2 == 0 && y < H && x < W
    ensures Taken(y, x, H, W, 2)
  {
    var a, b, i, j := y % 2, x % 2, y / 2, x / 2;
    var k := a * 2 + b;
    PairDigits(a, b, 2);
    assert y == a + i * 2 && x == b + j * 2 && i < H / 2 && j < W / 2;
    assert InSlices(k, i, j, H, W, 2) && Picked(k, i, j, 2) == (y, x);
  }

  /** Every element is taken exactly when the stride is 2 and both sides are even. */
  lemma NothingLost(H: nat, W: nat, s: nat)
    requires H >= 1 && W >= 1 && s >= 2
    ensures AllTaken(H, W, s) <==> s == 2 && H % 2 == 0 && W % 2 == 0
  {
    hide Taken;
    if s == 2 && H % 2 == 0 && W % 2 == 0 {
      forall y: nat, x: nat | y < H && x < W ensures Taken(y, x, H, W, s) {
        EvenTaken(H, W, y, x);
      }
    } else {
      SomethingLost(H, W, s);
    }
  }
}
