/** loadWeights of utils.cpp: a header of four or five integers, then floats to the end of the file. How four bytes
    are a float is a parameter; None is a failed assert. */
module WeightFile {
  import opened Options

  type Bytes = seq<bv8>

  type FloatOf = (bv8, bv8, bv8, bv8) -> real

  // std::string::find.
  predicate Contains(s: string, part: string) { part <= s || (s != [] && Contains(s[1..], part)) }

  function HeaderSize(modelName: string): nat {
    if Contains(modelName, "yolov2") && !Contains(modelName, "yolov2-tiny") then 4 * 4 else 4 * 5
  }

  // The loop, with floats read so far: four bytes are read whenever it is entered.
  function FloatsAfter(read: seq<real>, bytes: Bytes, float: FloatOf): Option<seq<real>>
    decreases |bytes|
  {
    if |bytes| < 4 then None
    else
      var more := read + [float(bytes[0], bytes[1], bytes[2], bytes[3])];
      if |bytes| == 4 then Some(more) else FloatsAfter(more, bytes[4..], float)
  }

  /** The weights of a file. A file that ends within the header has none; whether one that ends with the header is
      noticed to have ended is up to the stream library. */
  function WeightsOf(path: string, modelName: string, bytes: Bytes, float: FloatOf, notices: bool): Option<seq<real>> {
    var header := HeaderSize(modelName);
    if !Contains(path, ".weights") then None
    else if |bytes| < header || (|bytes| == header && notices) then Some([])
    else FloatsAfter([], bytes[header..], float)
  }

  lemma {:induction false} FloatsExactly(read: seq<real>, bytes: Bytes, float: FloatOf)
    ensures var r := FloatsAfter(read, bytes, float);
      && (r.Some? <==> bytes != [] && |bytes| % 4 == 0)
      && (r.Some? ==> read <= r.value && |r.value| == |read| + |bytes| / 4)
      && (r.Some? ==> forall k | 0 <= k < |bytes| / 4 :: r.value[|read| + k] == FloatAt(bytes, k, float))
    decreases |bytes|
  {
    if |bytes| > 4 {
      var (more, rest) := (read + [FloatAt(bytes, 0, float)], bytes[4..]);
      FloatsExactly(more, rest, float);
      var r := FloatsAfter(more, rest, float);
      if r.Some? {
        forall k | 0 < k < |bytes| / 4 ensures r.value[|read| + k] == FloatAt(bytes, k, float) {
          assert r.value[|more| + (k - 1)] == FloatAt(rest, k - 1, float);
        }
      }
    }
  }

  function FloatAt(bytes: Bytes, k: nat, float: FloatOf): real
    requires 4 * k + 4 <= |bytes|
  {
    float(bytes[4 * k], bytes[4 * k + 1], bytes[4 * k + 2], bytes[4 * k + 3])
  }

  /** A file longer than its header loads exactly when whole floats follow the header, and its weights are those. */
  lemma WeightsExactly(path: string, modelName: string, bytes: Bytes, float: FloatOf, notices: bool)
    requires Contains(path, ".weights") && |bytes| > HeaderSize(modelName)
    ensures var (w, rest) := (WeightsOf(path, modelName, bytes, float, notices), bytes[HeaderSize(modelName)..]);
      && (w.Some? <==> |rest| % 4 == 0)
      && (w.Some? ==> |w.value| == |rest| / 4 > 0)
      && (w.Some? ==> forall k | 0 <= k < |rest| / 4 :: w.value[k] == FloatAt(rest, k, float))
  {
    var rest := bytes[HeaderSize(modelName)..];
    FloatsExactly([], rest, float);
  }

  // The text stands at i.
  predicate StandsAt(s: string, part: string, i: nat) { i + |part| <= |s| && s[i..i + |part|] == part }

  ghost predicate Somewhere(s: string, part: string) { exists i: nat :: StandsAt(s, part, i) }

  lemma LaterPlace(s: string, part: string, i: nat)
    requires s != []
    ensures StandsAt(s[1..], part, i) <==> StandsAt(s, part, i + 1)
  {
    if i + 1 + |part| <= |s| {
      var (a, b) := (s[1..][i..i + |part|], s[i + 1..i + 1 + |part|]);
      assert |a| == |b| && forall k | 0 <= k < |a| :: a[k] == b[k];
    }
  }

  lemma FirstPlace(s: string, part: string)
    ensures StandsAt(s, part, 0) <==> part <= s
  {
  }

  /** A part is found exactly when it stands somewhere. */
  lemma {:induction false} ContainsExactly(s: string, part: string)
    ensures Contains(s, part) <==> Somewhere(s, part)
  {
    hide StandsAt;
    FirstPlace(s, part);
    if s != [] {
      ContainsExactly(s[1..], part);
      if Somewhere(s[1..], part) {
        var i: nat :| StandsAt(s[1..], part, i);
        LaterPlace(s, part, i);
      }
      if i: nat :| StandsAt(s, part, i) && i > 0 { LaterPlace(s, part, i - 1); }
    } else {
      OnlyFirst(part);
    }
  }

  lemma OnlyFirst(part: string)
    ensures forall i: nat :: StandsAt([], part, i) ==> i == 0
  {
  }

  /** The header has 16 bytes for models named after yolov2 but not yolov2-tiny, and 20 for all others. A path without
      the suffix anywhere in it is refused; a file that ends within its header has no weights; one that ends with it
      has none or is refused. */
  lemma HeadersExactly(path: string, modelName: string, bytes: Bytes, float: FloatOf, notices: bool)
    ensures var header := if Somewhere(modelName, "yolov2") && !Somewhere(modelName, "yolov2-tiny") then 16 else 20;
      var w := WeightsOf(path, modelName, bytes, float, notices);
      && HeaderSize(modelName) == header
      && (!Somewhere(path, ".weights") ==> w == None)
      && (Somewhere(path, ".weights") && |bytes| < header ==> w == Some([]))
      && (Somewhere(path, ".weights") && |bytes| == header ==> w == if notices then Some([]) else None)
  {
    hide Contains, Somewhere;
    ContainsExactly(modelName, "yolov2");
    ContainsExactly(modelName, "yolov2-tiny");
    ContainsExactly(path, ".weights");
  }

  method LoadWeights(path: string, modelName: string, bytes: Bytes, float: FloatOf, notices: bool)
    returns (weights: Option<seq<real>>)
    ensures weights == WeightsOf(path, modelName, bytes, float, notices)
  {
    hide Contains;
    if !Contains(path, ".weights") { return None; }
    var header := if Contains(modelName, "yolov2") && !Contains(modelName, "yolov2-tiny") then 4 * 4 else 4 * 5;
    var pos := if |bytes| < header then |bytes| else header;
    var eof := |bytes| < header || (|bytes| == header && notices);
    var list: seq<real> := [];
    while !eof
      invariant pos <= |bytes|
      invariant WeightsOf(path, modelName, bytes, float, notices)
             == if eof then Some(list) else FloatsAfter(list, bytes[pos..], float)
      decreases |bytes| - pos, !eof
    {
      if |bytes| - pos < 4 { return None; }
      var rest := bytes[pos..];
      list := list + [float(rest[0], rest[1], rest[2], rest[3])];
      pos := pos + 4;
      assert rest[4..] == bytes[pos..];
      // The peek at the end of the file.
      if pos == |bytes| { eof := true; }
    }
    weights := Some(list);
  }
}
