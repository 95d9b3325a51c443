/** Dense tensors in row-major order, with the two things a TensorRT shuffle layer does and the slice layer. */
module DenseTensor {
  import opened GridArithmetic

  datatype Dense<T> = Dense(dims: seq<nat>, data: seq<T>) {
    predicate Valid() { |data| == Volume(dims) }
  }

  function Volume(dims: seq<nat>): nat { if dims == [] then 1 else Volume(dims[..|dims| - 1]) * dims[|dims| - 1] }

  predicate InDims(dims: seq<nat>, idx: seq<nat>) {
    |idx| == |dims| && forall i | 0 <= i < |dims| :: idx[i] < dims[i]
  }

  // The position of an index, the last axis fastest.
  function Flat(dims: seq<nat>, idx: seq<nat>): nat
    requires |idx| == |dims|
  {
    if dims == [] then 0
    else Flat(dims[..|dims| - 1], idx[..|dims| - 1]) * dims[|dims| - 1] + idx[|dims| - 1]
  }

  lemma {:induction false} FlatBound(dims: seq<nat>, idx: seq<nat>)
    requires InDims(dims, idx)
    ensures Flat(dims, idx) < Volume(dims)
  {
    if dims != [] {
      var k := |dims| - 1;
      FlatBound(dims[..k], idx[..k]);
      PairBound(Flat(dims[..k], idx[..k]), Volume(dims[..k]), idx[k], dims[k]);
    }
  }

  // The index of a position.
  function Digits(dims: seq<nat>, p: nat): (idx: seq<nat>)
    requires p < Volume(dims)
    ensures InDims(dims, idx) && Flat(dims, idx) == p
  {
    if dims == [] then []
    else
      var (k, last) := (|dims| - 1, dims[|dims| - 1]);
      var q := (LastDigit(Volume(dims[..k]), last, p); p / last);
      assert (Digits(dims[..k], q) + [p % last])[..k] == Digits(dims[..k], q);
      Digits(dims[..k], q) + [p % last]
  }

  lemma LastDigit(a: nat, b: nat, p: nat)
    requires p < a * b
    ensures b > 0 && p / b < a && p % b < b && p == p / b * b + p % b
  {
  }

  /** A position has one index. */
  lemma {:induction false} FlatUnique(dims: seq<nat>, x: seq<nat>, y: seq<nat>)
    requires InDims(dims, x) && InDims(dims, y) && Flat(dims, x) == Flat(dims, y)
    ensures x == y
  {
    if dims != [] {
      var k := |dims| - 1;
      PairUnique(Flat(dims[..k], x[..k]), x[k], Flat(dims[..k], y[..k]), y[k], dims[k]);
      FlatUnique(dims[..k], x[..k], y[..k]);
      assert x == x[..k] + [x[k]] && y == y[..k] + [y[k]];
    }
  }

  lemma Horner(q: nat, a: nat, x: nat, b: nat, y: nat)
    ensures (q * a + x) * b + y == q * (a * b) + (x * b + y)
  {
  }

  /** Two neighbouring axes at the end read as one. */
  lemma MergeAxes(dims: seq<nat>, idx: seq<nat>, a: nat, b: nat, x: nat, y: nat)
    requires |idx| == |dims|
    ensures Flat(dims + [a, b], idx + [x, y]) == Flat(dims + [a * b], idx + [x * b + y])
  {
    hide Flat;
    FlatSnoc(dims, idx, a, x);
    FlatSnoc(dims + [a], idx + [x], b, y);
    FlatSnoc(dims, idx, a * b, x * b + y);
    assert dims + [a, b] == dims + [a] + [b] && idx + [x, y] == idx + [x] + [y];
    Horner(Flat(dims, idx), a, x, b, y);
  }

  lemma FlatSnoc(dims: seq<nat>, idx: seq<nat>, a: nat, x: nat)
    requires |idx| == |dims|
    ensures Flat(dims + [a], idx + [x]) == Flat(dims, idx) * a + x
  {
  }

  lemma VolumeSnoc(dims: seq<nat>, a: nat)
    ensures Volume(dims + [a]) == Volume(dims) * a
  {
  }

  // ---------- Transposition ----------

  predicate IsPermutation(perm: seq<nat>) {
    && (forall k | 0 <= k < |perm| :: perm[k] < |perm|)
    && (forall i | 0 <= i < |perm| :: i in perm)
  }

  function Permute(x: seq<nat>, perm: seq<nat>): (y: seq<nat>)
    requires |x| == |perm| && IsPermutation(perm)
    ensures |y| == |x|
  {
    seq(|x|, k requires 0 <= k < |x| => x[perm[k]])
  }

  function IndexOf(s: seq<nat>, x: nat): (k: nat)
    requires x in s
    ensures k < |s| && s[k] == x
  {
    if s[0] == x then 0 else 1 + IndexOf(s[1..], x)
  }

  function Unpermute(y: seq<nat>, perm: seq<nat>): (x: seq<nat>)
    requires |y| == |perm| && IsPermutation(perm)
    ensures |x| == |y|
  {
    seq(|y|, i requires 0 <= i < |y| => y[IndexOf(perm, i)])
  }

  lemma UnpermuteIsInverse(x: seq<nat>, perm: seq<nat>)
    requires |x| == |perm| && IsPermutation(perm)
    ensures Unpermute(Permute(x, perm), perm) == x
  {
  }

  lemma UnpermuteInDims(dims: seq<nat>, y: seq<nat>, perm: seq<nat>)
    requires |dims| == |perm| && IsPermutation(perm) && InDims(Permute(dims, perm), y)
    ensures InDims(dims, Unpermute(y, perm))
  {
  }

  lemma PermuteInDims(dims: seq<nat>, x: seq<nat>, perm: seq<nat>)
    requires |dims| == |perm| && IsPermutation(perm) && InDims(dims, x)
    ensures InDims(Permute(dims, perm), Permute(x, perm))
  {
  }

  // The source of position p of the transposed tensor.
  function TransposedFrom(dims: seq<nat>, perm: seq<nat>, p: nat): (q: nat)
    requires |dims| == |perm| && IsPermutation(perm) && p < Volume(Permute(dims, perm))
    ensures q < Volume(dims)
  {
    var y := Digits(Permute(dims, perm), p);
    UnpermuteInDims(dims, y, perm);
    FlatBound(dims, Unpermute(y, perm));
    Flat(dims, Unpermute(y, perm))
  }

  function Transpose<T>(t: Dense<T>, perm: seq<nat>): (r: Dense<T>)
    requires t.Valid() && |t.dims| == |perm| && IsPermutation(perm)
    ensures r.Valid() && r.dims == Permute(t.dims, perm)
  {
    var dims := Permute(t.dims, perm);
    Dense(dims, seq(Volume(dims), p requires 0 <= p < Volume(dims) => t.data[TransposedFrom(t.dims, perm, p)]))
  }

  /** The element at an index moves to the permuted index. */
  lemma TransposeMoves<T>(t: Dense<T>, perm: seq<nat>, idx: seq<nat>)
    requires t.Valid() && |t.dims| == |perm| && IsPermutation(perm) && InDims(t.dims, idx)
    ensures Flat(t.dims, idx) < |t.data|
    ensures var p := Flat(Permute(t.dims, perm), Permute(idx, perm));
      p < |Transpose(t, perm).data| && Transpose(t, perm).data[p] == t.data[Flat(t.dims, idx)]
  {
    hide Permute, Unpermute, Flat, Volume, Digits;
    FlatBound(t.dims, idx);
    PermuteInDims(t.dims, idx, perm);
    var dims, y := Permute(t.dims, perm), Permute(idx, perm);
    FlatBound(dims, y);
    FlatUnique(dims, y, Digits(dims, Flat(dims, y)));
    UnpermuteIsInverse(idx, perm);
  }

  // ---------- Reshaping and slicing ----------

  // Reshaping keeps the data; TensorRT refuses another volume.
  predicate Reshapes<T>(t: Dense<T>, dims: seq<nat>) { Volume(dims) == |t.data| }

  function Reshape<T>(t: Dense<T>, dims: seq<nat>): (r: Dense<T>)
    requires Reshapes(t, dims)
    ensures r.Valid()
  {
    Dense(dims, t.data)
  }

  function Strided(start: seq<nat>, idx: seq<nat>, stride: seq<nat>): (x: seq<nat>)
    requires |start| == |idx| == |stride|
    ensures |x| == |idx|
  {
    seq(|idx|, i requires 0 <= i < |idx| => start[i] + idx[i] * stride[i])
  }

  // Every element the slice asks for exists.
  ghost predicate Sliceable(dims: seq<nat>, start: seq<nat>, size: seq<nat>, stride: seq<nat>) {
    && |start| == |size| == |stride| == |dims|
    && forall idx | InDims(size, idx) :: InDims(dims, Strided(start, idx, stride))
  }

  ghost function Slice<T>(t: Dense<T>, start: seq<nat>, size: seq<nat>, stride: seq<nat>): (r: Dense<T>)
    requires t.Valid() && Sliceable(t.dims, start, size, stride)
    ensures r.Valid() && r.dims == size
  {
    Dense(size, seq(Volume(size), p requires 0 <= p < Volume(size) =>
      var x := Strided(start, Digits(size, p), stride);
      FlatBound(t.dims, x);
      t.data[Flat(t.dims, x)]))
  }

  lemma SliceTakes<T>(t: Dense<T>, start: seq<nat>, size: seq<nat>, stride: seq<nat>, idx: seq<nat>)
    requires t.Valid() && Sliceable(t.dims, start, size, stride) && InDims(size, idx)
    ensures Flat(t.dims, Strided(start, idx, stride)) < |t.data|
    ensures Flat(size, idx) < |Slice(t, start, size, stride).data|
    ensures Slice(t, start, size, stride).data[Flat(size, idx)] == t.data[Flat(t.dims, Strided(start, idx, stride))]
  {
    hide Strided, Flat, Volume, Digits;
    FlatBound(size, idx);
    FlatUnique(size, idx, Digits(size, Flat(size, idx)));
    FlatBound(t.dims, Strided(start, idx, stride));
  }
}
