/** The object queue of perception.cpp: probes push under a lock, one thread sends the front and pops it. What the
    broker library answers is an input. */
module MqttSender {
  // The results of mosquitto_publish that the code tells apart, and any other.
  datatype Code =
    | SUCCESS | INVAL | NOMEM | NO_CONN | PROTOCOL | PAYLOAD_SIZE | MALFORMED_UTF8 | QOS_NOT_SUPPORTED
    | OVERSIZE_PACKET | OTHER

  // Results after which send_mqtt_message does not try again.
  predicate Final(c: Code) {
    c in {SUCCESS, INVAL, PAYLOAD_SIZE, MALFORMED_UTF8, QOS_NOT_SUPPORTED, OVERSIZE_PACKET}
  }

  const TRIES := 5

  function Reconnects(codes: seq<Code>): nat {
    if codes == [] then 0 else Reconnects(codes[..|codes| - 1]) + if codes[|codes| - 1] == NO_CONN then 1 else 0
  }

  lemma ReconnectsSnoc(codes: seq<Code>, c: Code)
    ensures Reconnects(codes + [c]) == Reconnects(codes) + if c == NO_CONN then 1 else 0
  {
  }

  lemma {:induction false} ReconnectsAre(codes: seq<Code>)
    ensures Reconnects(codes) == multiset(codes)[NO_CONN]
  {
    if codes != [] {
      ReconnectsAre(codes[..|codes| - 1]);
      assert codes == codes[..|codes| - 1] + [codes[|codes| - 1]];
    }
  }

  lemma NoReconnects()
    ensures Reconnects([]) == 0
  {
  }

  /** The results of one send: retried results, then one that ends it or the fifth. */
  predicate IsSend(codes: seq<Code>) {
    && 1 <= |codes| <= TRIES
    && (forall k | 0 <= k < |codes| - 1 :: !Final(codes[k]))
    && (|codes| < TRIES ==> Final(codes[|codes| - 1]))
  }

  /** answer(k) is the result of attempt k. */
  method SendMqttMessage(answer: nat -> Code) returns (sentOK: bool, codes: seq<Code>, reconnects: nat)
    ensures IsSend(codes) && forall k | 0 <= k < |codes| :: codes[k] == answer(k)
    ensures sentOK <==> codes[|codes| - 1] == SUCCESS
    ensures reconnects == multiset(codes)[NO_CONN]
    ensures 1 <= |codes| <= 5
    ensures forall k | 0 <= k < |codes| - 1 :: codes[k] in {NOMEM, NO_CONN, PROTOCOL, OTHER}
    ensures codes[|codes| - 1] in {NOMEM, NO_CONN, PROTOCOL, OTHER} ==> |codes| == 5
  {
    hide Reconnects;
    sentOK, codes, reconnects := false, [], 0;
    NoReconnects();
    var tries: int := TRIES;
    while tries > 0
      invariant |codes| <= TRIES && (forall k | 0 <= k < |codes| :: codes[k] == answer(k))
      invariant tries > 0 ==> tries == TRIES - |codes| && !sentOK && forall k | 0 <= k < |codes| :: !Final(codes[k])
      invariant tries <= 0 ==> IsSend(codes) && (sentOK <==> codes[|codes| - 1] == SUCCESS)
      invariant reconnects == Reconnects(codes)
    {
      var ret := answer(|codes|);
      ReconnectsSnoc(codes, ret);
      codes := codes + [ret];
      match ret {
        case SUCCESS =>
          sentOK := true;
          tries := 0;
        case NO_CONN => reconnects := reconnects + 1;
        case INVAL => tries := 0;
        case PAYLOAD_SIZE => tries := 0;
        case MALFORMED_UTF8 => tries := 0;
        case QOS_NOT_SUPPORTED => tries := 0;
        case OVERSIZE_PACKET => tries := 0;
        case _ =>
      }
      tries := tries - 1;
    }
    ReconnectsAre(codes);
  }

  /** The number of attempts is determined by the answers. */
  lemma SendIsUnique(a: seq<Code>, b: seq<Code>, answer: nat -> Code)
    requires IsSend(a) && forall k | 0 <= k < |a| :: a[k] == answer(k)
    requires IsSend(b) && forall k | 0 <= k < |b| :: b[k] == answer(k)
    ensures a == b
  {
  }

  // ---------- The threads ----------

  /** Where the sender is. Awaiting: inside cv.wait, which gave the lock back. Sending: the front, the results so
      far. Sent: send_mqtt_message returned true, the pop comes next. */
  datatype Sender<Obj> =
    | Unlocked
    | Locked
    | Awaiting
    | Sending(front: Obj, codes: seq<Code>)
    | Sent(front: Obj)
    | Finished

  datatype Holder = Nobody | TheSender | Probe(id: nat)

  /** pushed and published record all objects pushed and all objects the library took. */
  datatype World<Obj> = World(
    queue: seq<Obj>,
    holder: Holder,
    sender: Sender<Obj>,
    pushed: seq<Obj>,
    published: seq<Obj>)

  /** One statement of one thread. Probes may be any number of threads. */
  datatype Event<Obj> =
    | ProbeLocks(id: nat)
    | ProbePushes(id: nat, obj: Obj)
    | ProbeUnlocks(id: nat)
    | SenderLocks
    | SenderChecks(frames: bool)
    | SenderPublishes(code: Code)
    | SenderReturns
    | SenderPops
    | SenderUnlocks

  function Start<Obj>(): World<Obj> { World([], Nobody, Unlocked, [], []) }

  predicate Happens<Obj(==)>(w: World<Obj>, e: Event<Obj>, v: World<Obj>) {
    match e
    case ProbeLocks(id) => w.holder == Nobody && v == w.(holder := Probe(id))
    case ProbePushes(id, obj) =>
      w.holder == Probe(id) && v == w.(queue := w.queue + [obj], pushed := w.pushed + [obj])
    case ProbeUnlocks(id) => w.holder == Probe(id) && v == w.(holder := Nobody)
    case SenderLocks =>
      w.holder == Nobody && w.sender in {Unlocked, Awaiting} && v == w.(holder := TheSender, sender := Locked)
    // Both lists empty: wait. frames says that frame_list is not empty.
    case SenderChecks(frames) =>
      && w.sender == Locked
      && v == (if w.queue == [] && !frames then w.(holder := Nobody, sender := Awaiting)
               else if w.queue == [] then w.(sender := Finished)
               else w.(sender := Sending(w.queue[0], [])))
    case SenderPublishes(code) =>
      && w.sender.Sending? && |w.sender.codes| < TRIES && (forall c | c in w.sender.codes :: !Final(c))
      && v == w.(sender := w.sender.(codes := w.sender.codes + [code]),
                 published := if code == SUCCESS then w.published + [w.sender.front] else w.published)
    case SenderReturns =>
      && w.sender.Sending? && IsSend(w.sender.codes)
      && v == w.(sender := if w.sender.codes[|w.sender.codes| - 1] == SUCCESS then Sent(w.sender.front) else Finished)
    case SenderPops => w.sender.Sent? && w.queue != [] && v == w.(queue := w.queue[1..], sender := Finished)
    case SenderUnlocks => w.sender == Finished && v == w.(holder := Nobody, sender := Unlocked)
  }

  ghost predicate IsRun<Obj>(ws: seq<World<Obj>>, es: seq<Event<Obj>>) {
    |ws| == |es| + 1 && ws[0] == Start() && forall k | 0 <= k < |es| :: Happens(ws[k], es[k], ws[k + 1])
  }

  // The front was taken by the library and is not yet popped.
  predicate Taken<Obj>(w: World<Obj>) {
    w.sender.Sent? || (w.sender.Sending? && w.sender.codes != [] && w.sender.codes[|w.sender.codes| - 1] == SUCCESS)
  }

  predicate Inv<Obj(==)>(w: World<Obj>) {
    && (w.holder == TheSender <==> !(w.sender in {Unlocked, Awaiting}))
    && (w.sender.Sending? || w.sender.Sent? ==> w.queue != [] && w.queue[0] == w.sender.front)
    && (w.sender.Sending? ==>
          && |w.sender.codes| <= TRIES
          && forall k | 0 <= k < |w.sender.codes| - 1 :: !Final(w.sender.codes[k]))
    && if Taken(w) then
         && w.published != []
         && w.published[|w.published| - 1] == w.sender.front
         && w.pushed == w.published[..|w.published| - 1] + w.queue
       else w.pushed == w.published + w.queue
  }

  lemma StepKeepsInv<Obj>(w: World<Obj>, e: Event<Obj>, v: World<Obj>)
    requires Inv(w) && Happens(w, e, v)
    ensures Inv(v)
  {
    match e
    case ProbePushes(id, obj) => assert w.published + w.queue + [obj] == w.published + (w.queue + [obj]);
    case SenderPublishes(code) =>
      var codes := w.sender.codes;
      assert codes != [] ==> codes[|codes| - 1] in codes;
      assert (w.published + [w.sender.front])[..|w.published|] == w.published;
    case SenderPops =>
      assert w.published == w.published[..|w.published| - 1] + [w.queue[0]];
      assert w.published[..|w.published| - 1] + w.queue == w.published + w.queue[1..];
    case _ =>
  }

  lemma {:induction false} RunKeepsInv<Obj>(ws: seq<World<Obj>>, es: seq<Event<Obj>>, k: nat)
    requires IsRun(ws, es) && k <= |es|
    ensures Inv(ws[k])
  {
    if k > 0 {
      RunKeepsInv(ws, es, k - 1);
      assert Happens(ws[k - 1], es[k - 1], ws[k - 1 + 1]);
      StepKeepsInv(ws[k - 1], es[k - 1], ws[k]);
    }
  }

  /** In every interleaving the objects published are the first ones pushed, each once and in order; with the lock
      free the rest is the queue; and no send makes more than five attempts. */
  lemma PublishedInOrder<Obj>(ws: seq<World<Obj>>, es: seq<Event<Obj>>, k: nat)
    requires IsRun(ws, es) && k <= |es|
    ensures ws[k].published <= ws[k].pushed
    ensures ws[k].holder != TheSender ==> ws[k].pushed == ws[k].published + ws[k].queue
    ensures ws[k].sender.Sending? ==> |ws[k].sender.codes| <= TRIES
  {
    RunKeepsInv(ws, es, k);
    var w := ws[k];
    if Taken(w) {
      assert w.published == w.published[..|w.published| - 1] + [w.queue[0]];
      assert w.pushed == w.published + w.queue[1..];
    }
  }

  /** Only a success removes an object: until one, the front stays, even after a result whose log line says that the
      packet is discarded. */
  lemma {:induction false} FrontStays<Obj>(ws: seq<World<Obj>>, es: seq<Event<Obj>>, m: nat, k: nat)
    requires IsRun(ws, es) && m <= k <= |es| && ws[m].queue != [] && !Taken(ws[m])
    requires forall j | m <= j < k :: es[j] != SenderPublishes(SUCCESS)
    ensures ws[m].queue <= ws[k].queue && ws[k].published == ws[m].published && !Taken(ws[k])
    decreases k
  {
    if k > m {
      FrontStays(ws, es, m, k - 1);
      assert Happens(ws[k - 1], es[k - 1], ws[k - 1 + 1]);
    }
  }

  /** The sender never gets stuck with the lock: whatever it does next is possible, the pop included. */
  lemma NotStuck<Obj>(w: World<Obj>) returns (e: Event<Obj>, v: World<Obj>)
    requires Inv(w) && w.holder == TheSender
    ensures Happens(w, e, v)
  {
    match w.sender
    case Locked =>
      e := SenderChecks(true);
      v := if w.queue == [] then w.(sender := Finished) else w.(sender := Sending(w.queue[0], []));
    case Sending(front, codes) =>
      if IsSend(codes) {
        e := SenderReturns;
        v := w.(sender := if codes[|codes| - 1] == SUCCESS then Sent(front) else Finished);
      } else {
        if codes != [] { assert forall k | 0 <= k < |codes| :: !Final(codes[k]); }
        e := SenderPublishes(NOMEM);
        v := w.(sender := Sending(front, codes + [NOMEM]));
      }
    case Sent(front) =>
      e := SenderPops;
      v := w.(queue := w.queue[1..], sender := Finished);
    case Finished =>
      e := SenderUnlocks;
      v := w.(holder := Nobody, sender := Unlocked);
    case _ =>
  }
}
