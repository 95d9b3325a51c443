/** reorg_layer.cpp: the four shuffle layers of the `reorg` branch. */
module Reorg {
  import opened Options
  import opened GridArithmetic
  import opened DenseTensor

  const PERM1: seq<nat> := [0, 1, 2, 4, 3, 5]
  const PERM2: seq<nat> := [0, 1, 3, 2]
  const PERM3: seq<nat> := [0, 2, 1, 3]

  function Dims1(N: nat, C: nat, H: nat, W: nat, s: nat): seq<nat>
    requires s > 0
  {
    [N, C / (s * s), H, s, W, s]
  }

  function Dims2(N: nat, C: nat, H: nat, W: nat, s: nat): seq<nat>
    requires s > 0
  {
    [N, C / (s * s), H * W, s * s]
  }

  function Dims3(N: nat, C: nat, H: nat, W: nat, s: nat): seq<nat>
    requires s > 0
  {
    [N, C / (s * s), s * s, H * W]
  }

  function Dims4(N: nat, C: nat, H: nat, W: nat, s: nat): seq<nat>
    requires s > 0
  {
    [N, C * s * s, H / s, W / s]
  }

  // A shuffle layer: reshape, then transpose. None when TensorRT refuses the shape.
  function Shuffle<T>(t: Dense<T>, dims: seq<nat>, perm: seq<nat>): (r: Option<Dense<T>>)
    requires t.Valid() && |dims| == |perm| && IsPermutation(perm)
    ensures r.Some? ==> r.value.Valid() && r.value.dims == Permute(dims, perm)
  {
    if Reshapes(t, dims) then Some(Transpose(Reshape(t, dims), perm)) else None
  }

  lemma Permutations()
    ensures IsPermutation(PERM1) && IsPermutation(PERM2) && IsPermutation(PERM3)
  {
  }

  /** The `reorg` branch. */
  function ReorgLayer<T>(t: Dense<T>, s: nat): (r: Option<Dense<T>>)
    requires t.Valid() && |t.dims| == 4 && s > 0
    ensures r.Some? ==> r.value.Valid()
  {
    var (N, C, H, W) := (t.dims[0], t.dims[1], t.dims[2], t.dims[3]);
    Permutations();
    var t1 :- Shuffle(t, Dims1(N, C, H, W, s), PERM1);
    var t2 :- Shuffle(t1, Dims2(N, C, H, W, s), PERM2);
    var t3 :- Shuffle(t2, Dims3(N, C, H, W, s), PERM3);
    if Reshapes(t3, Dims4(N, C, H, W, s)) then Some(Reshape(t3, Dims4(N, C, H, W, s))) else None
  }

  // ---------- When the shapes fit ----------

  lemma VolumeOfNone()
    ensures Volume([]) == 1
  {
  }

  lemma Volume4(a: nat, b: nat, c: nat, d: nat)
    ensures Volume([a, b, c, d]) == a * b * c * d
  {
    hide Volume;
    VolumeOfNone();
    VolumeSnoc([], a);
    VolumeSnoc([a], b);
    VolumeSnoc([a, b], c);
    VolumeSnoc([a, b, c], d);
    assert [] + [a] == [a] && [a] + [b] == [a, b] && [a, b] + [c] == [a, b, c] && [a, b, c] + [d] == [a, b, c, d];
  }

  lemma Volume6(a: nat, b: nat, c: nat, d: nat, e: nat, f: nat)
    ensures Volume([a, b, c, d, e, f]) == a * b * c * d * e * f
  {
    Volume4(a, b, c, d);
    VolumeSnoc([a, b, c, d], e);
    VolumeSnoc([a, b, c, d, e], f);
    assert [a, b, c, d] + [e] == [a, b, c, d, e] && [a, b, c, d, e] + [f] == [a, b, c, d, e, f];
  }

  // The volume of each of the first three stages, in the order the factors are wanted.
  lemma StageVolumes(N: nat, C: nat, H: nat, W: nat, s: nat)
    requires s > 0
    ensures Volume(Dims1(N, C, H, W, s)) == Volume(Dims2(N, C, H, W, s)) == Volume(Dims3(N, C, H, W, s))
         == Stage(N, C, H, W, s)
  {
    var D := C / (s * s);
    Volume6(N, D, H, s, W, s);
    Volume4(N, D, H * W, s * s);
    Volume4(N, D, s * s, H * W);
    Products(N * D, H, W, s);
  }

  function Stage(N: nat, C: nat, H: nat, W: nat, s: nat): nat
    requires s > 0
  {
    N * (C / (s * s)) * (H * W) * (s * s)
  }

  lemma Products(p: nat, H: nat, W: nat, s: nat)
    ensures p * H * s * W * s == p * (H * W) * (s * s) == p * (s * s) * (H * W)
  {
  }

  lemma Cancel(p: nat, x: nat, y: nat)
    requires p > 0
    ensures p * x == p * y <==> x == y
  {
  }

  // Two factors that do not grow keep their product only if they keep their values.
  lemma EqualFactors(a: nat, b: nat, x: nat, y: nat)
    requires a <= x && b <= y && x > 0 && y > 0
    ensures a * b == x * y <==> a == x && b == y
  {
  }

  lemma FirstShapeFits(N: nat, C: nat, H: nat, W: nat, s: nat)
    requires N >= 1 && C >= 1 && H >= 1 && W >= 1 && s >= 1
    ensures N * C * H * W == Stage(N, C, H, W, s) <==> C % (s * s) == 0
  {
  }

  lemma Rounded(d: nat, s: nat)
    requires s >= 1
    ensures d / s * s <= d && (d / s * s == d <==> d % s == 0)
  {
  }

  lemma LastShapeFits(N: nat, C: nat, H: nat, W: nat, s: nat)
    requires N >= 1 && C >= 1 && H >= 1 && W >= 1 && s >= 1
    ensures N * (C * s * s) * (H / s) * (W / s) == N * C * H * W <==> H % s == 0 && W % s == 0
  {
    var h, w := H / s, W / s;
    Rounded(H, s);
    Rounded(W, s);
    PairBound(0, N, 0, C);
    EqualFactors(h * s, w * s, H, W);
    Regroup(N, C, s, h, w);
    MulAssoc(N * C, H, W);
    Cancel(N * C, h * s * (w * s), H * W);
  }

  lemma Regroup(N: nat, C: nat, s: nat, h: nat, w: nat)
    ensures N * (C * s * s) * h * w == N * C * (h * s * (w * s))
  {
  }

  lemma Stages<T>(t: Dense<T>, s: nat)
    requires t.Valid() && |t.dims| == 4 && s > 0
    ensures var (N, C, H, W) := (t.dims[0], t.dims[1], t.dims[2], t.dims[3]);
      ReorgLayer(t, s).Some?
      <==> |t.data| == Stage(N, C, H, W, s) == N * (C * s * s) * (H / s) * (W / s)
  {
    hide Transpose, Stage, Volume, IsPermutation;
    var (N, C, H, W) := (t.dims[0], t.dims[1], t.dims[2], t.dims[3]);
    Permutations();
    StageVolumes(N, C, H, W, s);
    TransposedVolumes(N, C, H, W, s);
    Volume4(N, C * s * s, H / s, W / s);
  }

  lemma TransposedVolumes(N: nat, C: nat, H: nat, W: nat, s: nat)
    requires s > 0
    ensures IsPermutation(PERM1) && IsPermutation(PERM2) && IsPermutation(PERM3)
    ensures Volume(Permute(Dims1(N, C, H, W, s), PERM1)) == Stage(N, C, H, W, s)
    ensures Permute(Dims2(N, C, H, W, s), PERM2) == Dims3(N, C, H, W, s)
    ensures Volume(Permute(Dims3(N, C, H, W, s), PERM3)) == Stage(N, C, H, W, s)
  {
    hide Volume, IsPermutation;
    Permutations();
    var D := C / (s * s);
    assert Permute(Dims1(N, C, H, W, s), PERM1) == [N, D, H, W, s, s];
    Volume6(N, D, H, W, s, s);
    MulAssoc(N * D, H, W);
    MulAssoc(N * D * (H * W), s, s);
    assert Permute(Dims3(N, C, H, W, s), PERM3) == [N, s * s, D, H * W];
    Volume4(N, s * s, D, H * W);
    MulAssoc(N, s * s, D);
    MulAssoc(N * D, s * s, H * W);
    MulAssoc(N, D, s * s);
  }

  /** The layer can be built exactly when s divides the height and the width and its square the channels. */
  lemma ReorgAccepts<T>(t: Dense<T>, s: nat)
    requires t.Valid() && |t.dims| == 4 && s > 0 && forall k | 0 <= k < 4 :: t.dims[k] >= 1
    ensures ReorgLayer(t, s).Some? <==> t.dims[1] % (s * s) == 0 && t.dims[2] % s == 0 && t.dims[3] % s == 0
  {
    hide ReorgLayer, Stage, Volume;
    var (N, C, H, W) := (t.dims[0], t.dims[1], t.dims[2], t.dims[3]);
    Stages(t, s);
    assert t.dims == [N, C, H, W];
    Volume4(N, C, H, W);
    FirstShapeFits(N, C, H, W, s);
    LastShapeFits(N, C, H, W, s);
  }

  // ---------- Where the elements go ----------

  /** An element of the input, read again as (C / s^2) x (H s) x (W s): row h * s + j1 and column w * s + j2 of
      channel c of batch n. */
  datatype Place = Place(n: nat, c: nat, h: nat, j1: nat, w: nat, j2: nat)

  predicate InInput(p: Place, dims: seq<nat>, s: nat)
    requires |dims| == 4 && s > 0
  {
    p.n < dims[0] && p.c < dims[1] / (s * s) && p.h < dims[2] && p.j1 < s && p.w < dims[3] && p.j2 < s
  }

  // Position r of row q, when a row has b positions.
  function At(q: nat, b: nat, r: nat): nat { q * b + r }

  function Source(p: Place, dims: seq<nat>, s: nat): nat
    requires |dims| == 4 && s > 0
  {
    At(At(At(p.n, dims[1] / (s * s), p.c), dims[2] * s, At(p.h, s, p.j1)), dims[3] * s, At(p.w, s, p.j2))
  }

  function Target(p: Place, dims: seq<nat>, s: nat): nat
    requires |dims| == 4 && s > 0
  {
    At(At(At(p.n, s * s, At(p.j1, s, p.j2)), dims[1] / (s * s), p.c), dims[2] * dims[3], At(p.h, dims[3], p.w))
  }

  lemma Flat4(dims: seq<nat>, idx: seq<nat>)
    requires |dims| == |idx| == 4
    ensures Flat(dims, idx) == ((idx[0] * dims[1] + idx[1]) * dims[2] + idx[2]) * dims[3] + idx[3]
  {
    hide Flat;
    FlatOfNone();
    FlatSnoc([], [], dims[0], idx[0]);
    FlatSnoc([dims[0]], [idx[0]], dims[1], idx[1]);
    FlatSnoc(dims[..2], idx[..2], dims[2], idx[2]);
    FlatSnoc(dims[..3], idx[..3], dims[3], idx[3]);
    assert [] + [dims[0]] == [dims[0]] && [] + [idx[0]] == [idx[0]];
    assert [dims[0]] + [dims[1]] == dims[..2] && [idx[0]] + [idx[1]] == idx[..2];
    assert dims[..2] + [dims[2]] == dims[..3] && idx[..2] + [idx[2]] == idx[..3];
    assert dims[..3] + [dims[3]] == dims && idx[..3] + [idx[3]] == idx;
  }

  lemma FlatOfNone()
    ensures Flat([], []) == 0
  {
  }

  function Index1(p: Place): seq<nat> { [p.n, p.c, p.h, p.j1, p.w, p.j2] }

  lemma SourceIsFlat(p: Place, dims: seq<nat>, s: nat)
    requires |dims| == 4 && s > 0
    ensures Flat(Dims1(dims[0], dims[1], dims[2], dims[3], s), Index1(p)) == Source(p, dims, s)
  {
    hide Flat;
    var D, H, W := dims[1] / (s * s), dims[2], dims[3];
    var (front, at) := ([dims[0], D, H, s], [p.n, p.c, p.h, p.j1]);
    assert Dims1(dims[0], dims[1], H, W, s) == front + [W, s] && Index1(p) == at + [p.w, p.j2];
    MergeAxes(front, at, W, s, p.w, p.j2);
    FlatSnoc(front, at, W * s, p.w * s + p.j2);
    assert front == [dims[0], D] + [H, s] && at == [p.n, p.c] + [p.h, p.j1];
    MergeAxes([dims[0], D], [p.n, p.c], H, s, p.h, p.j1);
    var (rows, row) := ([dims[0], D] + [H * s], [p.n, p.c] + [p.h * s + p.j1]);
    FlatSnoc(rows, row, W * s, p.w * s + p.j2);
    assert rows + [W * s] == [dims[0], D, H * s, W * s];
    assert row + [p.w * s + p.j2] == [p.n, p.c, p.h * s + p.j1, p.w * s + p.j2];
    Flat4([dims[0], D, H * s, W * s], [p.n, p.c, p.h * s + p.j1, p.w * s + p.j2]);
  }

  // The index of the place after each stage.
  lemma StageOne(p: Place, dims: seq<nat>, s: nat)
    requires |dims| == 4 && s > 0 && InInput(p, dims, s)
    ensures IsPermutation(PERM1)
    ensures InDims(Dims1(dims[0], dims[1], dims[2], dims[3], s), Index1(p))
    ensures Flat(Permute(Dims1(dims[0], dims[1], dims[2], dims[3], s), PERM1), Permute(Index1(p), PERM1))
         == Flat(Dims2(dims[0], dims[1], dims[2], dims[3], s),
                 [p.n, p.c, p.h * dims[3] + p.w, p.j1 * s + p.j2])
  {
    hide Flat;
    Permutations();
    var (D, H, W) := (dims[1] / (s * s), dims[2], dims[3]);
    assert Permute(Dims1(dims[0], dims[1], H, W, s), PERM1) == [dims[0], D, H, W] + [s, s];
    assert Permute(Index1(p), PERM1) == [p.n, p.c, p.h, p.w] + [p.j1, p.j2];
    MergeAxes([dims[0], D, H, W], [p.n, p.c, p.h, p.w], s, s, p.j1, p.j2);
    FlatSnoc([dims[0], D, H, W], [p.n, p.c, p.h, p.w], s * s, p.j1 * s + p.j2);
    assert [dims[0], D, H, W] == [dims[0], D] + [H, W] && [p.n, p.c, p.h, p.w] == [p.n, p.c] + [p.h, p.w];
    MergeAxes([dims[0], D], [p.n, p.c], H, W, p.h, p.w);
    FlatSnoc([dims[0], D] + [H * W], [p.n, p.c] + [p.h * W + p.w], s * s, p.j1 * s + p.j2);
    assert [dims[0], D] + [H * W] + [s * s] == Dims2(dims[0], dims[1], H, W, s);
    assert [p.n, p.c] + [p.h * W + p.w] + [p.j1 * s + p.j2] == [p.n, p.c, p.h * W + p.w, p.j1 * s + p.j2];
  }

  lemma LaterIndices(p: Place, dims: seq<nat>, s: nat)
    requires |dims| == 4 && s > 0 && InInput(p, dims, s)
    ensures IsPermutation(PERM2) && IsPermutation(PERM3)
    ensures var (a, b) := (p.h * dims[3] + p.w, p.j1 * s + p.j2);
      && InDims(Dims2(dims[0], dims[1], dims[2], dims[3], s), [p.n, p.c, a, b])
      && InDims(Dims3(dims[0], dims[1], dims[2], dims[3], s), [p.n, p.c, b, a])
      && Permute([p.n, p.c, a, b], PERM2) == [p.n, p.c, b, a]
      && Permute([p.n, p.c, b, a], PERM3) == [p.n, b, p.c, a]
      && Flat(Permute(Dims3(dims[0], dims[1], dims[2], dims[3], s), PERM3), [p.n, b, p.c, a]) == Target(p, dims, s)
  {
    hide Flat;
    Permutations();
    PairBound(p.h, dims[2], p.w, dims[3]);
    PairBound(p.j1, s, p.j2, s);
    var (a, b) := (p.h * dims[3] + p.w, p.j1 * s + p.j2);
    assert Permute([p.n, p.c, a, b], PERM2) == [p.n, p.c, b, a];
    assert Permute([p.n, p.c, b, a], PERM3) == [p.n, b, p.c, a];
    Flat4(Permute(Dims3(dims[0], dims[1], dims[2], dims[3], s), PERM3), [p.n, b, p.c, a]);
  }

  /** The four stages are one move: the element of each place goes from its source to its target. */
  lemma ReorgMoves<T>(t: Dense<T>, s: nat, p: Place)
    requires t.Valid() && |t.dims| == 4 && s > 0 && ReorgLayer(t, s).Some? && InInput(p, t.dims, s)
    ensures var r := ReorgLayer(t, s).value;
      && Source(p, t.dims, s) < |t.data| == |r.data| && Target(p, t.dims, s) < |r.data|
      && r.data[Target(p, t.dims, s)] == t.data[Source(p, t.dims, s)]
  {
    hide Transpose, Volume, Flat, IsPermutation, Permute, Source, Target, Digits, TransposedFrom;
    var (N, C, H, W) := (t.dims[0], t.dims[1], t.dims[2], t.dims[3]);
    var (a, b) := (p.h * W + p.w, p.j1 * s + p.j2);
    Permutations();
    Stages(t, s);
    StageVolumes(N, C, H, W, s);
    TransposedVolumes(N, C, H, W, s);
    SourceIsFlat(p, t.dims, s);
    StageOne(p, t.dims, s);
    LaterIndices(p, t.dims, s);
    var u1 := Reshape(t, Dims1(N, C, H, W, s));
    var t1 := Transpose(u1, PERM1);
    var u2 := Reshape(t1, Dims2(N, C, H, W, s));
    var t2 := Transpose(u2, PERM2);
    var u3 := Reshape(t2, Dims3(N, C, H, W, s));
    TransposeMoves(u1, PERM1, Index1(p));
    TransposeMoves(u2, PERM2, [p.n, p.c, a, b]);
    TransposeMoves(u3, PERM3, [p.n, p.c, b, a]);
    assert ReorgLayer(t, s).value.data == Transpose(u3, PERM3).data;
  }

  // ---------- A bijection ----------

  lemma AtUnique(q: nat, r: nat, q': nat, r': nat, b: nat)
    requires r < b && r' < b && At(q, b, r) == At(q', b, r')
    ensures q == q' && r == r'
  {
    PairUnique(q, r, q', r', b);
  }

  lemma AtBound(q: nat, a: nat, r: nat, b: nat)
    requires q < a && r < b
    ensures At(q, b, r) < a * b
  {
    PairBound(q, a, r, b);
  }

  lemma AtSplit(n: nat, a: nat, b: nat) returns (q: nat, r: nat)
    requires n < a * b
    ensures q < a && r < b && n == At(q, b, r)
  {
    q, r := PairSplit(n, a, b);
  }

  /** No two places have the same source or the same target. */
  lemma PlacesAreApart(p: Place, q: Place, dims: seq<nat>, s: nat)
    requires |dims| == 4 && s > 0 && InInput(p, dims, s) && InInput(q, dims, s)
    ensures Source(p, dims, s) == Source(q, dims, s) ==> p == q
    ensures Target(p, dims, s) == Target(q, dims, s) ==> p == q
  {
    hide At;
    var (D, H, W) := (dims[1] / (s * s), dims[2], dims[3]);
    AtBound(p.h, H, p.j1, s);
    AtBound(q.h, H, q.j1, s);
    AtBound(p.w, W, p.j2, s);
    AtBound(q.w, W, q.j2, s);
    AtBound(p.h, H, p.w, W);
    AtBound(q.h, H, q.w, W);
    AtBound(p.j1, s, p.j2, s);
    AtBound(q.j1, s, q.j2, s);
    if Source(p, dims, s) == Source(q, dims, s) {
      AtUnique(At(At(p.n, D, p.c), H * s, At(p.h, s, p.j1)), At(p.w, s, p.j2),
               At(At(q.n, D, q.c), H * s, At(q.h, s, q.j1)), At(q.w, s, q.j2), W * s);
      AtUnique(At(p.n, D, p.c), At(p.h, s, p.j1), At(q.n, D, q.c), At(q.h, s, q.j1), H * s);
      AtUnique(p.n, p.c, q.n, q.c, D);
      AtUnique(p.h, p.j1, q.h, q.j1, s);
      AtUnique(p.w, p.j2, q.w, q.j2, s);
    }
    if Target(p, dims, s) == Target(q, dims, s) {
      AtUnique(At(At(p.n, s * s, At(p.j1, s, p.j2)), D, p.c), At(p.h, W, p.w),
               At(At(q.n, s * s, At(q.j1, s, q.j2)), D, q.c), At(q.h, W, q.w), H * W);
      AtUnique(At(p.n, s * s, At(p.j1, s, p.j2)), p.c, At(q.n, s * s, At(q.j1, s, q.j2)), q.c, D);
      AtUnique(p.n, At(p.j1, s, p.j2), q.n, At(q.j1, s, q.j2), s * s);
      AtUnique(p.j1, p.j2, q.j1, q.j2, s);
      AtUnique(p.h, p.w, q.h, q.w, W);
    }
  }

  lemma SourceBound(dims: seq<nat>, s: nat)
    requires |dims| == 4 && s > 0
    ensures Stage(dims[0], dims[1], dims[2], dims[3], s)
         == dims[0] * (dims[1] / (s * s)) * (dims[2] * s) * (dims[3] * s)
         == dims[0] * (s * s) * (dims[1] / (s * s)) * (dims[2] * dims[3])
  {
    var (N, D, H, W) := (dims[0], dims[1] / (s * s), dims[2], dims[3]);
    Products(N * D, H, W, s);
    MulAssoc(N * D, H, s);
    MulAssoc(N * D * (H * s), W, s);
    MulAssoc(N, D, s * s);
    MulAssoc(N, s * s, D);
  }

  /** Every position of the input is the source of a place, and every position of the output is a target: the
      layer is a permutation of the data. */
  lemma EveryPositionHasAPlace<T>(t: Dense<T>, s: nat, x: nat) returns (from: Place, to: Place)
    requires t.Valid() && |t.dims| == 4 && s > 0 && ReorgLayer(t, s).Some? && x < |t.data|
    ensures |ReorgLayer(t, s).value.data| == |t.data|
    ensures InInput(from, t.dims, s) && Source(from, t.dims, s) == x
    ensures InInput(to, t.dims, s) && Target(to, t.dims, s) == x
  {
    hide At, Stage, ReorgLayer, Volume;
    var (N, D, H, W) := (t.dims[0], t.dims[1] / (s * s), t.dims[2], t.dims[3]);
    Stages(t, s);
    SourceBound(t.dims, s);
    SameSize(t, s);
    var y, col := AtSplit(x, N * D * (H * s), W * s);
    var z, row := AtSplit(y, N * D, H * s);
    var n, c := AtSplit(z, N, D);
    var h, j1 := AtSplit(row, H, s);
    var w, j2 := AtSplit(col, W, s);
    from := Place(n, c, h, j1, w, j2);
    var y', cell := AtSplit(x, N * (s * s) * D, H * W);
    var z', c' := AtSplit(y', N * (s * s), D);
    var n', j := AtSplit(z', N, s * s);
    var j1', j2' := AtSplit(j, s, s);
    var h', w' := AtSplit(cell, H, W);
    to := Place(n', c', h', j1', w', j2');
  }

  lemma SameSize<T>(t: Dense<T>, s: nat)
    requires t.Valid() && |t.dims| == 4 && s > 0 && ReorgLayer(t, s).Some?
    ensures |ReorgLayer(t, s).value.data| == |t.data|
  {
    hide Transpose, Volume, IsPermutation;
    var (N, C, H, W) := (t.dims[0], t.dims[1], t.dims[2], t.dims[3]);
    Permutations();
    Stages(t, s);
    StageVolumes(N, C, H, W, s);
    TransposedVolumes(N, C, H, W, s);
  }

  // ---------- The same in plain arithmetic ----------

  // The position of an index in row-major order; b to f are the sizes of its last axes.
  function SixAxes(n: nat, b: nat, x: nat, c: nat, y: nat, d: nat, z: nat, e: nat, u: nat, f: nat, v: nat): nat {
    ((((n * b + x) * c + y) * d + z) * e + u) * f + v
  }

  lemma SourceIs(p: Place, dims: seq<nat>, s: nat)
    requires |dims| == 4 && s > 0
    ensures Source(p, dims, s)
         == SixAxes(p.n, dims[1] / (s * s), p.c, dims[2], p.h, s, p.j1, dims[3], p.w, s, p.j2)
  {
    var (q, H, W) := (p.n * (dims[1] / (s * s)) + p.c, dims[2], dims[3]);
    var row := (q * H + p.h) * s + p.j1;
    Horner(q, H, p.h, s, p.j1);
    Horner(row, W, p.w, s, p.j2);
  }

  lemma TargetIs(p: Place, dims: seq<nat>, s: nat)
    requires |dims| == 4 && s > 0
    ensures Target(p, dims, s)
         == SixAxes(p.n, s, p.j1, s, p.j2, dims[1] / (s * s), p.c, dims[2], p.h, dims[3], p.w)
  {
    var (D, H, W) := (dims[1] / (s * s), dims[2], dims[3]);
    Horner(p.n, s, p.j1, s, p.j2);
    Horner(((p.n * s + p.j1) * s + p.j2) * D + p.c, H, p.h, W, p.w);
  }

  /** The layer makes a tensor of shape [N, C s^2, H / s, W / s]. Read as [N, s, s, C / s^2, H, W] its element
      (n, j1, j2, c, h, w) is element (n, c, h, j1, w, j2) of the input read as [N, C / s^2, H, s, W, s]. */
  lemma ReorgExactly<T>(t: Dense<T>, s: nat, n: nat, j1: nat, j2: nat, c: nat, h: nat, w: nat)
    requires t.Valid() && |t.dims| == 4 && s > 0 && ReorgLayer(t, s).Some?
    requires n < t.dims[0] && c < t.dims[1] / (s * s) && h < t.dims[2] && w < t.dims[3] && j1 < s && j2 < s
    ensures var (r, D, H, W) := (ReorgLayer(t, s).value, t.dims[1] / (s * s), t.dims[2], t.dims[3]);
      var to := SixAxes(n, s, j1, s, j2, D, c, H, h, W, w);
      var from := SixAxes(n, D, c, H, h, s, j1, W, w, s, j2);
      to < |r.data| == |t.data| && from < |t.data| && r.data[to] == t.data[from]
    ensures ReorgLayer(t, s).value.dims == [t.dims[0], t.dims[1] * s * s, t.dims[2] / s, t.dims[3] / s]
  {
    hide Source, Target, ReorgLayer, SixAxes;
    var p := Place(n, c, h, j1, w, j2);
    ReorgMoves(t, s, p);
    SourceIs(p, t.dims, s);
    TargetIs(p, t.dims, s);
    ReorgDims(t, s);
  }

  lemma ReorgDims<T>(t: Dense<T>, s: nat)
    requires t.Valid() && |t.dims| == 4 && s > 0 && ReorgLayer(t, s).Some?
    ensures ReorgLayer(t, s).value.dims == [t.dims[0], t.dims[1] * s * s, t.dims[2] / s, t.dims[3] / s]
  {
    hide Transpose, IsPermutation;
  }
}
