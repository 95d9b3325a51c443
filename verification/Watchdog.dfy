/** check_performance of perception.cpp, once a second, with add_source and delete_source of Pipeline.cpp: streams
    without frames are taken out of the pipeline and put back. What GStreamer answers is an input. */
module Watchdog {
  import opened Options

  datatype Reset =
    NoReset | ChangeStateToNull | CheckForStateNull | Initialiting | Ready | DeleteStream | Waiting | AddStream

  // A source bin, named by its stream and by the number of calls before it was made.
  datatype Bin = Bin(stream: nat, serial: nat)

  datatype Stream = Stream(padIndex: nat, frameCount: nat, noFrameCount: nat, sourceBin: Option<Bin>, reset: Reset)

  datatype StateChange = Success | Failure | Async | NoPreroll

  /** What GStreamer answers when stream i is visited: to the state change of a delete, and whether a new bin is
      made, its muxer pad granted and the two linked. */
  datatype Answer = Answer(toDelete: StateChange, makesBin: bool, grantsPad: bool, links: bool)

  datatype Call = Delete | Readd

  /** streams_, the request pads of the muxer, the source bins in the pipeline, and for each stream the calls of
      delete_source and add_source so far. */
  datatype World = World(streams: seq<Stream>, pads: set<nat>, bins: set<Bin>, calls: seq<seq<Call>>)

  // ---------- The calls ----------

  predicate Valid(w: World) {
    |w.calls| == |w.streams| && forall i | 0 <= i < |w.streams| :: w.streams[i].padIndex == i
  }

  function Deleted(w: World, i: nat, result: StateChange): World
    requires Valid(w) && i < |w.streams| && w.streams[i].sourceBin.Some?
  {
    var v := w.(calls := w.calls[i := w.calls[i] + [Delete]]);
    if result in {Success, Async} then v.(pads := w.pads - {i}, bins := w.bins - {w.streams[i].sourceBin.value}) else v
  }

  /** add_source. The muxer refuses a pad it already has. */
  function Added(w: World, i: nat, a: Answer, readding: bool): World
    requires Valid(w) && i < |w.streams|
  {
    var v := if readding then w.(calls := w.calls[i := w.calls[i] + [Readd]]) else w;
    if !a.makesBin then v
    else
      var bin := Bin(i, |v.calls[i]|);
      v.(streams := w.streams[i := Stream(i, 0, 0, Some(bin), NoReset)],
         bins := w.bins + {bin},
         pads := if a.grantsPad then w.pads + {i} else w.pads)
  }

  function Readded(w: World, i: nat, a: Answer): World
    requires Valid(w) && i < |w.streams|
  {
    Added(w, i, a, true)
  }

  /** One turn of the loop. */
  function Visit(w: World, i: nat, a: Answer): (v: World)
    requires Valid(w) && i < |w.streams|
    ensures Valid(v) && |v.streams| == |w.streams|
  {
    var s := w.streams[i];
    var v :=
      if s.sourceBin.None? then w
      else if s.frameCount > 0 then SetStream(w, i, s.(noFrameCount := 0))
      else
        var t := s.(noFrameCount := s.noFrameCount + 1);
        if t.noFrameCount <= 20 then SetStream(w, i, t)
        else match t.reset
          case NoReset | DeleteStream => Deleted(SetStream(w, i, t.(reset := Waiting)), i, a.toDelete)
          case Waiting => SetStream(w, i, if t.noFrameCount >= 30 then t.(reset := AddStream) else t)
          case AddStream => Readded(SetStream(w, i, t.(sourceBin := None)), i, a)
          case _ => SetStream(w, i, t);
    SetStream(v, i, v.streams[i].(frameCount := 0))
  }

  function SetStream(w: World, i: nat, s: Stream): (v: World)
    requires Valid(w) && i < |w.streams| && s.padIndex == i
    ensures Valid(v)
  {
    w.(streams := w.streams[i := s])
  }

  // The loop over the first n streams.
  function Swept(w: World, answers: seq<Answer>, n: nat): (v: World)
    requires Valid(w) && n <= |w.streams| == |answers|
    ensures Valid(v) && |v.streams| == |w.streams|
  {
    if n == 0 then w else Visit(Swept(w, answers, n - 1), n - 1, answers[n - 1])
  }

  // ---------- The object ----------

  class Pipeline {
    var streams: seq<Stream>
    var pads: set<nat>
    var bins: set<Bin>
    var calls: seq<seq<Call>>
    var numSources: nat

    ghost function Contents(): World
      reads this
    {
      World(streams, pads, bins, calls)
    }

    // Room for n streams, none added.
    constructor (n: nat)
      ensures Contents() == Blank(n) && numSources == 0
    {
      streams, calls, pads, bins, numSources := Blank(n).streams, Blank(n).calls, {}, {}, 0;
    }

    /** The first round, for streams whose pad indices are 0 to n - 1 in any order, when every stream gets its bin,
        pad and link: all are attached and counted. */
    method AddSources(padIndices: seq<nat>)
      requires Contents() == Blank(|padIndices|) && numSources == 0
      requires forall k | 0 <= k < |padIndices| :: padIndices[k] < |padIndices|
      requires forall k, l | 0 <= k < l < |padIndices| :: padIndices[k] != padIndices[l]
      modifies this
      ensures Contents() == Started(|padIndices|) && numSources == |padIndices|
    {
      AllOccur(padIndices);
      for k := 0 to |padIndices|
        invariant Contents() == PartlyStarted(padIndices, k) && numSources == k
      {
        AddSource(padIndices[k], GOOD, false);
        AddOne(padIndices, k);
      }
      AllStarted(padIndices);
    }

    method DeleteSource(stream: Stream, result: StateChange)
      requires Valid(Contents()) && stream.padIndex < |streams| && stream == streams[stream.padIndex]
      requires stream.sourceBin.Some?
      modifies this
      ensures Contents() == Deleted(old(Contents()), stream.padIndex, result) && numSources == old(numSources)
    {
      calls := calls[stream.padIndex := calls[stream.padIndex] + [Delete]];
      match result
      case Success =>
        pads := pads - {stream.padIndex};
        bins := bins - {stream.sourceBin.value};
      case Async =>
        pads := pads - {stream.padIndex};
        bins := bins - {stream.sourceBin.value};
      case Failure =>
      case NoPreroll =>
    }

    method AddSource(padIndex: nat, a: Answer, readding: bool)
      requires Valid(Contents()) && padIndex < |streams|
      modifies this
      ensures Contents() == Added(old(Contents()), padIndex, a, readding)
      ensures numSources == old(numSources)
        + if !readding && a.makesBin && a.grantsPad && a.links && padIndex !in old(pads) then 1 else 0
    {
      if readding { calls := calls[padIndex := calls[padIndex] + [Readd]]; }
      if !a.makesBin { return; }
      var sourceBin := Bin(padIndex, |calls[padIndex]|);
      var s := streams[padIndex];
      s := s.(padIndex := padIndex);
      s := s.(frameCount := 0);
      s := s.(noFrameCount := 0);
      s := s.(sourceBin := Some(sourceBin));
      s := s.(reset := NoReset);
      streams := streams[padIndex := s];
      bins := bins + {sourceBin};
      var connected := ConnectMuxer(padIndex, a);
      if !connected { return; }
      if !readding { numSources := numSources + 1; }
    }

    // The requested pad stays with the muxer when the link fails.
    method ConnectMuxer(padIndex: nat, a: Answer) returns (ok: bool)
      modifies this`pads
      ensures pads == if a.grantsPad then old(pads) + {padIndex} else old(pads)
      ensures ok <==> padIndex !in old(pads) && a.grantsPad && a.links
    {
      if padIndex in pads || !a.grantsPad { return false; }
      pads := pads + {padIndex};
      ok := a.links;
    }

    method CheckStream(i: nat, a: Answer)
      requires Valid(Contents()) && i < |streams|
      modifies this
      ensures Contents() == Visit(old(Contents()), i, a) && numSources == old(numSources)
    {
      var s := streams[i];
      if s.sourceBin.Some? {
        if s.frameCount == 0 {
          streams := streams[i := streams[i].(noFrameCount := streams[i].noFrameCount + 1)];
          if streams[i].noFrameCount > 20 {
            match streams[i].reset
            case NoReset | DeleteStream =>
              DeleteSource(streams[i], a.toDelete);
              streams := streams[i := streams[i].(reset := Waiting)];
            case Waiting =>
              if streams[i].noFrameCount >= 30 { streams := streams[i := streams[i].(reset := AddStream)]; }
            case AddStream =>
              streams := streams[i := streams[i].(sourceBin := None)];
              AddSource(streams[i].padIndex, a, true);
            case _ =>
          }
        } else {
          streams := streams[i := streams[i].(noFrameCount := 0)];
        }
      }
      streams := streams[i := streams[i].(frameCount := 0)];
    }

    /** Only the streams counted in the first round are visited. */
    method CheckPerformance(answers: seq<Answer>)
      requires Valid(Contents()) && numSources <= |answers| == |streams|
      modifies this
      ensures Contents() == Swept(old(Contents()), answers, old(numSources)) && numSources == old(numSources)
    {
      for i := 0 to numSources
        invariant numSources == old(numSources) <= |streams| == |answers| && Valid(Contents())
        invariant Contents() == Swept(old(Contents()), answers, i)
      {
        CheckStream(i, answers[i]);
      }
    }
  }

  // ---------- The first round ----------

  // Every answer as hoped for.
  const GOOD := Answer(Success, true, true, true)

  function Blank(n: nat): (w: World)
    ensures Valid(w) && |w.streams| == n
  {
    World(seq(n, i requires 0 <= i < n => Stream(i, 0, 0, None, NoReset)), {}, {}, seq(n, i => []))
  }

  // The first k streams of the list are added.
  ghost function PartlyStarted(padIndices: seq<nat>, k: nat): (w: World)
    requires k <= |padIndices|
    ensures Valid(w) && |w.streams| == |padIndices|
  {
    var added := padIndices[..k];
    World(seq(|padIndices|, i requires 0 <= i < |padIndices| =>
            Stream(i, 0, 0, if i in added then Some(Bin(i, 0)) else None, NoReset)),
          set i: nat | i in added,
          set i: nat | i in added :: Bin(i, 0),
          seq(|padIndices|, i => []))
  }

  lemma AddOne(padIndices: seq<nat>, k: nat)
    requires k < |padIndices| && padIndices[k] < |padIndices|
    ensures PartlyStarted(padIndices, k + 1) == Added(PartlyStarted(padIndices, k), padIndices[k], GOOD, false)
  {
    var (p, w) := (padIndices[k], PartlyStarted(padIndices, k));
    assert padIndices[..k + 1] == padIndices[..k] + [p];
    var v := Added(w, p, GOOD, false);
    var u := PartlyStarted(padIndices, k + 1);
    assert forall b: Bin :: b in u.bins <==> b in v.bins;
    assert u.streams == v.streams && u.pads == v.pads && u.calls == v.calls;
  }

  // Distinct indices below their number are all of them.
  lemma AllOccur(padIndices: seq<nat>)
    requires forall k | 0 <= k < |padIndices| :: padIndices[k] < |padIndices|
    requires forall k, l | 0 <= k < l < |padIndices| :: padIndices[k] != padIndices[l]
    ensures forall i: nat :: i in padIndices <==> i < |padIndices|
  {
    var occurring := Occurring(padIndices, |padIndices|);
    FirstPadsSize(|padIndices|);
    assert occurring <= FirstPads(|padIndices|);
    SameSize(occurring, FirstPads(|padIndices|));
    assert padIndices[..|padIndices|] == padIndices;
  }

  lemma {:induction false} Occurring(padIndices: seq<nat>, k: nat) returns (r: set<nat>)
    requires k <= |padIndices|
    requires forall k, l | 0 <= k < l < |padIndices| :: padIndices[k] != padIndices[l]
    ensures |r| == k && forall i: nat :: i in r <==> i in padIndices[..k]
  {
    if k == 0 {
      r := {};
    } else {
      r := Occurring(padIndices, k - 1);
      assert padIndices[..k] == padIndices[..k - 1] + [padIndices[k - 1]];
      r := r + {padIndices[k - 1]};
    }
  }

  lemma {:induction false} FirstPadsSize(n: nat)
    ensures |FirstPads(n)| == n
  {
    if n > 0 { FirstPadsSize(n - 1); }
  }

  lemma SameSize(a: set<nat>, b: set<nat>)
    requires a <= b && |a| == |b|
    ensures a == b
  {
    var rest := b - a;
    assert b == a + rest && |b| == |a| + |rest|;
  }

  lemma AllStarted(padIndices: seq<nat>)
    requires forall i: nat :: i in padIndices <==> i < |padIndices|
    ensures PartlyStarted(padIndices, |padIndices|) == Started(|padIndices|)
  {
    var n := |padIndices|;
    assert padIndices[..n] == padIndices;
    var (u, v) := (PartlyStarted(padIndices, n), Started(n));
    assert forall b: Bin :: b in u.bins <==> b in v.bins;
    assert u.streams == v.streams && u.pads == v.pads && u.calls == v.calls;
  }

  function FirstPads(n: nat): (r: set<nat>)
    ensures forall i: nat :: i in r <==> i < n
  {
    if n == 0 then {} else FirstPads(n - 1) + {n - 1}
  }

  function FirstBins(n: nat): (r: set<Bin>)
    ensures forall b: Bin :: b in r <==> b.stream < n && b.serial == 0
  {
    if n == 0 then {} else FirstBins(n - 1) + {Bin(n - 1, 0)}
  }

  // All streams added, before the first tick.
  function Started(n: nat): (w: World)
    ensures Valid(w) && |w.streams| == n
  {
    World(seq(n, i requires 0 <= i < n => Stream(i, 0, 0, Some(Bin(i, 0)), NoReset)),
          FirstPads(n),
          FirstBins(n),
          seq(n, i => []))
  }

  // ---------- Runs ----------

  /** Between ticks frames are counted; at a tick every stream is visited. */
  datatype Event = Frame(stream: nat) | Tick(answers: seq<Answer>)

  ghost predicate Happens(w: World, e: Event, v: World)
    requires Valid(w)
  {
    match e
    case Frame(i) =>
      i < |w.streams| && v == SetStream(w, i, w.streams[i].(frameCount := w.streams[i].frameCount + 1))
    case Tick(answers) => |answers| == |w.streams| && v == Swept(w, answers, |answers|)
  }

  ghost predicate IsRun(ws: seq<World>, es: seq<Event>, n: nat) {
    && |ws| == |es| + 1 && ws[0] == Started(n)
    && forall k | 0 <= k < |es| :: Valid(ws[k]) && Happens(ws[k], es[k], ws[k + 1])
  }

  // ---------- What holds of every stream in every run ----------

  predicate Alternates(calls: seq<Call>) {
    forall k | 0 <= k < |calls| :: calls[k] == if k % 2 == 0 then Delete else Readd
  }

  // The states of a stream between visits.
  predicate Reachable(s: Stream) {
    match s.reset
    case NoReset => s.noFrameCount <= 20
    case Waiting => s.noFrameCount <= 29
    case AddStream => s.noFrameCount <= 20 || s.noFrameCount == 30
    case _ => false
  }

  // Deleted streams are those after an odd number of calls; a stream without a bin was lost by a re-add.
  predicate StreamInv(s: Stream, calls: seq<Call>) {
    && Alternates(calls)
    && (s.sourceBin.Some? ==> Reachable(s) && (s.reset == NoReset <==> |calls| % 2 == 0))
    && (s.sourceBin.None? ==> calls != [] && |calls| % 2 == 0)
  }

  predicate Inv(w: World) { Valid(w) && forall i | 0 <= i < |w.streams| :: StreamInv(w.streams[i], w.calls[i]) }

  lemma VisitKeepsInv(w: World, i: nat, a: Answer)
    requires Inv(w) && i < |w.streams|
    ensures Inv(Visit(w, i, a))
  {
  }

  lemma {:induction false} SweepKeepsInv(w: World, answers: seq<Answer>, n: nat)
    requires Inv(w) && n <= |w.streams| == |answers|
    ensures Inv(Swept(w, answers, n))
  {
    hide Visit, StreamInv;
    if n > 0 {
      SweepKeepsInv(w, answers, n - 1);
      VisitKeepsInv(Swept(w, answers, n - 1), n - 1, answers[n - 1]);
    }
  }

  /** In every run, whatever GStreamer answers: the calls for each stream alternate, delete first, and a stream
      with a bin is in one of the states above. */
  lemma {:induction false} CallsAlternate(ws: seq<World>, es: seq<Event>, n: nat, k: nat)
    requires IsRun(ws, es, n) && k <= |es|
    ensures Inv(ws[k])
  {
    if k > 0 {
      CallsAlternate(ws, es, n, k - 1);
      assert Happens(ws[k - 1], es[k - 1], ws[k - 1 + 1]);
      if es[k - 1].Tick? { SweepKeepsInv(ws[k - 1], es[k - 1].answers, |ws[k - 1].streams|); }
    }
  }

  // ---------- A stream that is lost ----------

  predicate Lost(w: World, i: nat)
    requires Valid(w) && i < |w.streams|
  {
    w.streams[i].sourceBin.None?
  }

  /** A visit loses a stream exactly when it is re-added and no bin is made. */
  lemma LostExactly(w: World, i: nat, a: Answer)
    requires Valid(w) && i < |w.streams| && !Lost(w, i)
    ensures Lost(Visit(w, i, a), i)
      <==> Silent(w.streams[i]) && w.streams[i].reset == AddStream && !a.makesBin
  {
  }

  /** A stream without a bin never gets one again, and nothing is called for it, whatever GStreamer answers. */
  lemma {:induction false} LostForGood(ws: seq<World>, es: seq<Event>, n: nat, i: nat, m: nat, k: nat)
    requires IsRun(ws, es, n) && m <= k <= |es| && Valid(ws[m]) && i < |ws[m].streams| && Lost(ws[m], i)
    ensures Valid(ws[k]) && i < |ws[k].streams| && Lost(ws[k], i) && ws[k].calls[i] == ws[m].calls[i]
    decreases k
  {
    hide Visit, Swept;
    if k > m {
      LostForGood(ws, es, n, i, m, k - 1);
      assert Happens(ws[k - 1], es[k - 1], ws[k - 1 + 1]);
      match es[k - 1]
      case Frame(_) =>
      case Tick(answers) =>
        SweepVisits(ws[k - 1], answers, |answers|, i);
        LostStays(ws[k - 1], i, answers[i]);
    }
  }

  lemma LostStays(w: World, i: nat, a: Answer)
    requires Valid(w) && i < |w.streams| && Lost(w, i)
    ensures Lost(Visit(w, i, a), i) && Visit(w, i, a).calls[i] == w.calls[i]
  {
  }

  // ---------- Pads and bins, when GStreamer does as asked ----------

  predicate Obliging(a: Answer) { a.toDelete in {Success, Async} && a.makesBin && a.grantsPad }

  predicate AllObliging(answers: seq<Answer>) { forall a | a in answers :: Obliging(a) }

  // The bin that stream i has in the pipeline.
  predicate Attached(w: World, i: nat)
    requires Valid(w) && i < |w.streams|
  {
    w.streams[i].sourceBin.Some? && w.streams[i].reset == NoReset
  }

  ghost predicate Balanced(w: World) {
    && Inv(w)
    && (forall i | 0 <= i < |w.streams| :: w.streams[i].sourceBin.Some? && w.streams[i].sourceBin.value.stream == i)
    && (forall i: nat :: i in w.pads <==> i < |w.streams| && Attached(w, i))
    && (forall b: Bin :: b in w.bins <==>
          b.stream < |w.streams| && Attached(w, b.stream) && w.streams[b.stream].sourceBin == Some(b))
  }

  // Visited without frames in the last second and for the count before that.
  predicate Silent(s: Stream) { s.sourceBin.Some? && s.frameCount == 0 && s.noFrameCount >= 20 }

  // The answers that matter at a visit are good ones.
  predicate Helps(s: Stream, a: Answer) {
    && (Silent(s) && s.reset == NoReset ==> a.toDelete in {Success, Async})
    && (Silent(s) && s.reset == AddStream ==> a.makesBin && a.grantsPad)
  }

  /** A visit keeps the balance exactly when the state change of a delete does not fail, and a bin is made and
      given its pad when one is re-added. */
  lemma BalanceExactly(w: World, i: nat, a: Answer)
    requires Balanced(w) && i < |w.streams|
    ensures Balanced(Visit(w, i, a)) <==> Helps(w.streams[i], a)
  {
    VisitKeepsInv(w, i, a);
    var (s, v) := (w.streams[i], Visit(w, i, a));
    if Silent(s) && s.reset == NoReset {
      DeletedBalance(w, i, a);
    } else if Silent(s) && s.reset == AddStream {
      ReaddedBalance(w, i, a);
    } else {
      assert v.pads == w.pads && v.bins == w.bins;
      assert forall j | 0 <= j < |w.streams| :: Attached(v, j) == Attached(w, j);
    }
  }

  lemma DeletedBalance(w: World, i: nat, a: Answer)
    requires Balanced(w) && i < |w.streams| && Silent(w.streams[i]) && w.streams[i].reset == NoReset
    ensures Balanced(Visit(w, i, a)) <==> a.toDelete in {Success, Async}
  {
    VisitKeepsInv(w, i, a);
    var v := Visit(w, i, a);
    assert i in w.pads && !Attached(v, i);
    assert forall j | 0 <= j < |w.streams| && j != i :: Attached(v, j) == Attached(w, j);
  }

  lemma ReaddedBalance(w: World, i: nat, a: Answer)
    requires Balanced(w) && i < |w.streams| && Silent(w.streams[i]) && w.streams[i].reset == AddStream
    ensures Balanced(Visit(w, i, a)) <==> a.makesBin && a.grantsPad
  {
    VisitKeepsInv(w, i, a);
    var v := Visit(w, i, a);
    assert i !in w.pads;
    assert forall j | 0 <= j < |w.streams| && j != i :: Attached(v, j) == Attached(w, j);
  }

  lemma {:induction false} SweepKeepsBalance(w: World, answers: seq<Answer>, n: nat)
    requires Balanced(w) && n <= |w.streams| == |answers| && AllObliging(answers)
    ensures Balanced(Swept(w, answers, n))
  {
    hide Visit, Obliging, StreamInv, Attached;
    if n > 0 {
      SweepKeepsBalance(w, answers, n - 1);
      assert answers[n - 1] in answers;
      BalanceExactly(Swept(w, answers, n - 1), n - 1, answers[n - 1]);
      ObligingHelps(Swept(w, answers, n - 1).streams[n - 1], answers[n - 1]);
    }
  }

  lemma ObligingHelps(s: Stream, a: Answer)
    requires Obliging(a)
    ensures Helps(s, a)
  {
  }

  lemma StartedIsBalanced(n: nat)
    ensures Balanced(Started(n))
  {
    forall b: Bin ensures b in Started(n).bins <==> b.stream < n && b == Bin(b.stream, 0) {}
  }

  ghost predicate ObligingRun(es: seq<Event>) { forall e | e in es && e.Tick? :: AllObliging(e.answers) }

  /** In every run of obliging answers a stream has its pad, and its one bin in the pipeline, exactly when it was
      re-added as often as deleted. */
  lemma {:induction false} PadsAreBalanced(ws: seq<World>, es: seq<Event>, n: nat, k: nat)
    requires IsRun(ws, es, n) && k <= |es| && ObligingRun(es)
    ensures Balanced(ws[k])
  {
    hide Balanced, AllObliging;
    StartedIsBalanced(n);
    if k > 0 {
      PadsAreBalanced(ws, es, n, k - 1);
      assert Happens(ws[k - 1], es[k - 1], ws[k - 1 + 1]) && es[k - 1] in es;
      match es[k - 1]
      case Tick(answers) => SweepKeepsBalance(ws[k - 1], answers, |answers|);
      case Frame(i) => FrameKeepsBalance(ws[k - 1], i, ws[k]);
    }
  }

  lemma FrameKeepsBalance(w: World, i: nat, v: World)
    requires Balanced(w) && Happens(w, Frame(i), v)
    ensures Balanced(v)
  {
  }

  /** At most one bin per stream. */
  lemma OneBinPerStream(w: World, b: Bin, c: Bin)
    requires Balanced(w) && b in w.bins && c in w.bins && b.stream == c.stream
    ensures b == c
  {
  }

  // ---------- The schedule of a stream without frames ----------

  lemma {:induction false} SweepVisits(w: World, answers: seq<Answer>, n: nat, i: nat)
    requires Valid(w) && n <= |w.streams| == |answers| && i < |w.streams|
    ensures var v := Swept(w, answers, n);
      && |v.streams| == |w.streams| && Valid(v)
      && v.streams[i] == (if i < n then Visit(w, i, answers[i]).streams[i] else w.streams[i])
      && v.calls[i] == (if i < n then Visit(w, i, answers[i]).calls[i] else w.calls[i])
  {
    hide Visit;
    if n > 0 {
      SweepVisits(w, answers, n - 1, i);
      var v := Swept(w, answers, n - 1);
      if i == n - 1 { VisitIsLocal(w, v, i, answers[i]); } else { VisitSparesOthers(v, n - 1, i, answers[n - 1]); }
    }
  }

  // A visit depends on the state of its own stream,
  lemma VisitIsLocal(w: World, v: World, i: nat, a: Answer)
    requires Valid(w) && Valid(v) && i < |w.streams| == |v.streams|
    requires v.streams[i] == w.streams[i] && v.calls[i] == w.calls[i]
    ensures Visit(v, i, a).streams[i] == Visit(w, i, a).streams[i]
    ensures Visit(v, i, a).calls[i] == Visit(w, i, a).calls[i]
  {
  }

  // and changes no other.
  lemma VisitSparesOthers(w: World, j: nat, i: nat, a: Answer)
    requires Valid(w) && i < |w.streams| && j < |w.streams| && i != j
    ensures Visit(w, j, a).streams[i] == w.streams[i] && Visit(w, j, a).calls[i] == w.calls[i]
  {
  }

  function Ticks(es: seq<Event>): nat {
    if es == [] then 0 else Ticks(es[..|es| - 1]) + if es[|es| - 1].Tick? then 1 else 0
  }

  // The state after t silent ticks, and what is called at tick t.
  function PhaseAt(t: nat): (Reset, nat) {
    var r := t % 31;
    if r <= 20 then (NoReset, r) else if r <= 29 then (Waiting, r) else (AddStream, r)
  }

  function CallAt(t: nat): seq<Call> { if t % 31 == 21 then [Delete] else if t % 31 == 0 then [Readd] else [] }

  predicate InPhase(s: Stream, t: nat) {
    s.sourceBin.Some? && s.frameCount == 0 && (s.reset, s.noFrameCount) == PhaseAt(t)
  }

  lemma NextPhase(w: World, i: nat, a: Answer, t: nat)
    requires Valid(w) && i < |w.streams| && InPhase(w.streams[i], t) && a.makesBin
    ensures InPhase(Visit(w, i, a).streams[i], t + 1)
    ensures Visit(w, i, a).calls[i] == w.calls[i] + CallAt(t + 1)
  {
    if t % 31 == 30 { assert (t + 1) % 31 == 0; } else { assert (t + 1) % 31 == t % 31 + 1; }
  }

  // Stream i gets no frames from event m to event k, and its bins are made.
  predicate NoFrames(es: seq<Event>, i: nat, m: nat, k: nat)
    requires m <= k <= |es|
  {
    forall j | m <= j < k ::
      es[j] != Frame(i) && (es[j].Tick? ==> i < |es[j].answers| && es[j].answers[i].makesBin)
  }

  lemma {:induction false} PhasesFollow(ws: seq<World>, es: seq<Event>, n: nat, i: nat, m: nat, k: nat)
    requires IsRun(ws, es, n) && m <= k <= |es| && Valid(ws[m]) && i < |ws[m].streams|
    requires InPhase(ws[m].streams[i], 0) && NoFrames(es, i, m, k)
    ensures Valid(ws[k]) && i < |ws[k].streams| && InPhase(ws[k].streams[i], Ticks(es[m..k]))
    decreases k
  {
    hide InPhase, CallAt, Visit, Swept, Happens, Started;
    if k > m {
      PhasesFollow(ws, es, n, i, m, k - 1);
      TickIsNext(ws, es, n, i, m, k - 1);
      assert es[m..k][..k - 1 - m] == es[m..k - 1];
    }
  }

  lemma TickIsNext(ws: seq<World>, es: seq<Event>, n: nat, i: nat, m: nat, k: nat)
    requires IsRun(ws, es, n) && m <= k < |es| && NoFrames(es, i, m, k + 1)
    requires Valid(ws[k]) && i < |ws[k].streams| && InPhase(ws[k].streams[i], Ticks(es[m..k]))
    ensures Valid(ws[k + 1]) && i < |ws[k + 1].streams|
    ensures var t := Ticks(es[m..k]);
      if es[k].Tick? then InPhase(ws[k + 1].streams[i], t + 1) && ws[k + 1].calls[i] == ws[k].calls[i] + CallAt(t + 1)
      else InPhase(ws[k + 1].streams[i], t) && ws[k + 1].calls[i] == ws[k].calls[i]
  {
    hide InPhase, CallAt, Visit, Swept;
    assert Happens(ws[k], es[k], ws[k + 1]);
    match es[k]
    case Frame(j) =>
    case Tick(answers) =>
      SweepVisits(ws[k], answers, |answers|, i);
      NextPhase(ws[k], i, answers[i], Ticks(es[m..k]));
  }

  /** A stream that gets no frames from a moment without any on is deleted at silent ticks 21, 52, 83, ... and
      re-added at 31, 62, 93, ..., and nothing is called for it at any other event. */
  lemma Schedule(ws: seq<World>, es: seq<Event>, n: nat, i: nat, m: nat, k: nat)
    requires IsRun(ws, es, n) && m <= k < |es| && Valid(ws[m]) && i < |ws[m].streams|
    requires InPhase(ws[m].streams[i], 0) && NoFrames(es, i, m, k + 1)
    ensures Valid(ws[k]) && Valid(ws[k + 1]) && |ws[k + 1].streams| == |ws[k].streams| > i
    ensures ws[k + 1].calls[i]
         == ws[k].calls[i] + if es[k].Tick? then CallAt(Ticks(es[m..k]) + 1) else []
  {
    PhasesFollow(ws, es, n, i, m, k);
    TickIsNext(ws, es, n, i, m, k);
    assert Happens(ws[k], es[k], ws[k + 1]);
  }

  // ---------- A frame puts off the next call ----------

  // A stream without a bin, or the ticks since a frame are more than it counts.
  predicate CountsSince(s: Stream, ticks: nat) {
    s.sourceBin.Some? ==> s.frameCount > 0 || s.noFrameCount < ticks
  }

  lemma VisitCounts(w: World, i: nat, a: Answer, ticks: nat)
    requires Valid(w) && i < |w.streams| && CountsSince(w.streams[i], ticks)
    ensures CountsSince(Visit(w, i, a).streams[i], ticks + 1)
    ensures ticks < 21 ==> Visit(w, i, a).calls[i] == w.calls[i]
  {
  }

  lemma {:induction false} CountedSince(ws: seq<World>, es: seq<Event>, n: nat, i: nat, j: nat, k: nat)
    requires IsRun(ws, es, n) && j < k <= |es| && es[j] == Frame(i)
    ensures Valid(ws[k]) && i < |ws[k].streams| && CountsSince(ws[k].streams[i], Ticks(es[j..k]))
    decreases k
  {
    hide Visit, Swept;
    assert Happens(ws[k - 1], es[k - 1], ws[k - 1 + 1]);
    if j < k - 1 {
      CountedSince(ws, es, n, i, j, k - 1);
      assert es[j..k][..k - 1 - j] == es[j..k - 1];
      match es[k - 1]
      case Frame(_) =>
      case Tick(answers) =>
        SweepVisits(ws[k - 1], answers, |answers|, i);
        VisitCounts(ws[k - 1], i, answers[i], Ticks(es[j..k - 1]));
    }
  }

  /** In every run, whatever GStreamer answers: a stream is deleted or re-added only at a tick, and at least 21 ticks
      after its last frame. */
  lemma CallsNeedSilence(ws: seq<World>, es: seq<Event>, n: nat, i: nat, k: nat)
    requires IsRun(ws, es, n) && k < |es| && Valid(ws[k]) && Valid(ws[k + 1]) && i < |ws[k].streams|
    ensures i < |ws[k + 1].streams|
    ensures ws[k + 1].calls[i] != ws[k].calls[i] ==>
      es[k].Tick? && forall j | 0 <= j < k && es[j] == Frame(i) :: Ticks(es[j..k]) >= 21
  {
    hide Visit, Swept, CountsSince;
    assert Happens(ws[k], es[k], ws[k + 1]);
    if es[k].Tick? {
      SweepVisits(ws[k], es[k].answers, |es[k].answers|, i);
      forall j | 0 <= j < k && es[j] == Frame(i)
        ensures ws[k + 1].calls[i] != ws[k].calls[i] ==> Ticks(es[j..k]) >= 21
      {
        CountedSince(ws, es, n, i, j, k);
        VisitCounts(ws[k], i, es[k].answers[i], Ticks(es[j..k]));
      }
    }
  }

  // ---------- Every one of those states is reached ----------

  // One stream: for each second, whether it was without frames.
  function Play(quiet: seq<bool>): (w: World)
    ensures Valid(w) && |w.streams| == 1
  {
    if quiet == [] then Started(1)
    else
      var w := Play(quiet[..|quiet| - 1]);
      Visit(if quiet[|quiet| - 1] then w else SetStream(w, 0, w.streams[0].(frameCount := w.streams[0].frameCount + 1)),
            0, GOOD)
  }

  lemma {:induction false} PlayIsRun(quiet: seq<bool>) returns (ws: seq<World>, es: seq<Event>)
    ensures IsRun(ws, es, 1) && ws[|es|] == Play(quiet)
  {
    hide Visit, Started;
    if quiet == [] {
      ws, es := [Started(1)], [];
    } else {
      ws, es := PlayIsRun(quiet[..|quiet| - 1]);
      var w := ws[|es|];
      if !quiet[|quiet| - 1] {
        w := SetStream(w, 0, w.streams[0].(frameCount := w.streams[0].frameCount + 1));
        OneMore(ws, es, Frame(0), w);
        ws, es := ws + [w], es + [Frame(0)];
      }
      assert Swept(w, [GOOD], 0) == w && Swept(w, [GOOD], 1) == Visit(w, 0, GOOD);
      OneMore(ws, es, Tick([GOOD]), Visit(w, 0, GOOD));
      ws, es := ws + [Visit(w, 0, GOOD)], es + [Tick([GOOD])];
    }
  }

  lemma OneMore(ws: seq<World>, es: seq<Event>, e: Event, v: World)
    requires IsRun(ws, es, 1) && Valid(ws[|es|]) && Happens(ws[|es|], e, v)
    ensures IsRun(ws + [v], es + [e], 1)
  {
    hide Happens, Valid, Started;
    var more := ws + [v];
    forall k | 0 <= k <= |es| ensures Valid(more[k]) && Happens(more[k], (es + [e])[k], more[k + 1]) {
      if k < |es| { assert Happens(ws[k], es[k], ws[k + 1]); }
    }
  }

  predicate StandsAt(w: World, reset: Reset, count: nat)
    requires |w.streams| == 1
  {
    var s := w.streams[0];
    s.sourceBin.Some? && s.frameCount == 0 && s.reset == reset && s.noFrameCount == count
  }

  function Seconds(k: nat): (r: seq<bool>)
    ensures |r| == k
  {
    if k == 0 then [] else Seconds(k - 1) + [true]
  }

  lemma NextSecond(before: seq<bool>, quiet: bool, reset: Reset, count: nat)
    requires StandsAt(Play(before), reset, count) && reset in {NoReset, Waiting, AddStream}
    ensures !quiet ==> StandsAt(Play(before + [quiet]), reset, 0)
    ensures quiet && count < (if reset == Waiting then 29 else 20) ==>
      StandsAt(Play(before + [quiet]), reset, count + 1)
    ensures quiet && reset == NoReset && count == 20 ==> StandsAt(Play(before + [quiet]), Waiting, 21)
    ensures quiet && reset == Waiting && count == 29 ==> StandsAt(Play(before + [quiet]), AddStream, 30)
  {
    assert (before + [quiet])[..|before|] == before;
  }

  // Quiet seconds in one state.
  lemma {:induction false} QuietSeconds(before: seq<bool>, reset: Reset, k: nat)
    requires StandsAt(Play(before), reset, 0) && reset in {NoReset, Waiting, AddStream}
    requires k <= if reset == Waiting then 29 else 20
    ensures StandsAt(Play(before + Seconds(k)), reset, k)
  {
    hide Play, StandsAt;
    if k == 0 {
      assert before + Seconds(0) == before;
    } else {
      QuietSeconds(before, reset, k - 1);
      NextSecond(before + Seconds(k - 1), true, reset, k - 1);
      assert before + Seconds(k) == before + Seconds(k - 1) + [true];
    }
  }

  /** Together with CallsAlternate: those states and no others. */
  lemma EveryStateIsReached(s: Stream) returns (quiet: seq<bool>)
    requires Reachable(s)
    ensures StandsAt(Play(quiet), s.reset, s.noFrameCount)
  {
    hide Play, StandsAt;
    StartStands();
    var k := s.noFrameCount;
    if s.reset == NoReset {
      QuietSeconds([], NoReset, k);
      return [] + Seconds(k);
    }
    // After 21 seconds, and some with frames.
    QuietSeconds([], NoReset, 20);
    quiet := [] + Seconds(20);
    NextSecond(quiet, true, NoReset, 20);
    quiet := quiet + [true];
    NextSecond(quiet, false, Waiting, 21);
    quiet := quiet + [false];
    if s.reset == Waiting {
      QuietSeconds(quiet, Waiting, k);
      return quiet + Seconds(k);
    }
    QuietSeconds(quiet, Waiting, 29);
    quiet := quiet + Seconds(29);
    NextSecond(quiet, true, Waiting, 29);
    quiet := quiet + [true];
    if k < 30 {
      NextSecond(quiet, false, AddStream, 30);
      quiet := quiet + [false];
      QuietSeconds(quiet, AddStream, k);
      quiet := quiet + Seconds(k);
    }
  }

  lemma StartStands()
    ensures StandsAt(Play([]), NoReset, 0)
  {
  }
}
