/** backend/main.py in time: messages and sweeps as instantaneous events, sweeps at most CHECK_INTERVAL apart. */
module PresenceTiming {
  import opened PresenceThreads

  const CHECK_INTERVAL: real := 2.0

  datatype Sent = Sent(p: Pid, alert: Alert, time: real)

  type People = map<Pid, Record>

  predicate Inactive(people: People, p: Pid, now: real) {
    p in people && people[p].insideRoi && now - people[p].lastUpdate > INACTIVITY_THRESHOLD
  }

  function Received(people: People, p: Pid, now: real): People { people[p := Record(now, true)] }

  function EntryAlert(people: People, p: Pid, now: real): seq<Sent> {
    if p in people && people[p].insideRoi then [] else [Sent(p, Entry, now)]
  }

  function Swept(people: People, now: real): People {
    map p | p in people :: if Inactive(people, p, now) then people[p].(insideRoi := false) else people[p]
  }

  // One exit alert for each inactive person, in the order of the dictionary.
  ghost predicate ExitAlerts(people: People, now: real, exits: seq<Sent>) {
    && (forall p :: Inactive(people, p, now) <==> Sent(p, Exit, now) in exits)
    && (forall e | e in exits :: e == Sent(e.p, Exit, now))
    && (forall i, j | 0 <= i < j < |exits| :: exits[i] != exits[j])
  }

  class Backend {
    var people: People
    var log: seq<Sent>

    constructor ()
      ensures people == map[] && log == []
    {
      people, log := map[], [];
    }

    method OnMessage(p: Pid, now: real)
      modifies this
      ensures people == Received(old(people), p, now)
      ensures log == old(log) + EntryAlert(old(people), p, now)
    {
      if p !in people {
        people := people[p := Record(now, false)];
      } else {
        people := people[p := people[p].(lastUpdate := now)];
      }
      if !people[p].insideRoi {
        log := log + [Sent(p, Entry, now)];
        people := people[p := people[p].(insideRoi := true)];
      }
    }

    // One turn of the loop of check_no_change.
    method Sweep(now: real)
      modifies this
      ensures people == Swept(old(people), now)
      ensures old(log) <= log && ExitAlerts(old(people), now, log[|old(log)|..])
    {
      var todo := people.Keys;
      ghost var exits: seq<Sent> := [];
      while todo != {}
        invariant todo <= people.Keys == old(people).Keys
        invariant forall p | p in people ::
          people[p] == if p in todo then old(people)[p] else Swept(old(people), now)[p]
        invariant log == old(log) + exits
        invariant forall p :: Inactive(old(people), p, now) && p !in todo <==> Sent(p, Exit, now) in exits
        invariant forall e | e in exits :: e == Sent(e.p, Exit, now)
        invariant forall i, j | 0 <= i < j < |exits| :: exits[i] != exits[j]
        decreases todo
      {
        var p :| p in todo;
        if people[p].insideRoi && now - people[p].lastUpdate > INACTIVITY_THRESHOLD {
          log := log + [Sent(p, Exit, now)];
          people := people[p := people[p].(insideRoi := false)];
          assert Sent(p, Exit, now) !in exits;
          exits := exits + [Sent(p, Exit, now)];
        }
        todo := todo - {p};
      }
      assert log[|old(log)|..] == exits;
    }
  }

  // ---------- Timed runs ----------

  datatype Event = Message(p: Pid, time: real) | Check(time: real) | Pass(time: real)

  datatype World = World(people: People, log: seq<Sent>, clock: real, lastCheck: real)

  ghost predicate Happens(w: World, e: Event, v: World) {
    && w.clock <= e.time <= w.lastCheck + CHECK_INTERVAL
    && v.clock == e.time
    && w.log <= v.log
    && match e
       case Message(p, t) =>
         && v.people == Received(w.people, p, t)
         && v.log == w.log + EntryAlert(w.people, p, t)
         && v.lastCheck == w.lastCheck
       case Check(t) =>
         v.people == Swept(w.people, t) && ExitAlerts(w.people, t, v.log[|w.log|..]) && v.lastCheck == t
       case Pass(t) => v.people == w.people && v.log == w.log && v.lastCheck == w.lastCheck
  }

  // The checker thread starts with a sweep of the empty dictionary.
  ghost predicate IsTimedRun(ws: seq<World>, es: seq<Event>) {
    && |ws| == |es| + 1
    && ws[0] == World(map[], [], ws[0].clock, ws[0].clock)
    && forall i | 0 <= i < |es| :: Happens(ws[i], es[i], ws[i + 1])
  }

  predicate Heard(es: seq<Event>, p: Pid) { exists i | 0 <= i < |es| :: es[i].Message? && es[i].p == p }

  // When the person was last heard of.
  function LastHeard(es: seq<Event>, p: Pid): real
    requires Heard(es, p)
  {
    var last := es[|es| - 1];
    if last.Message? && last.p == p then last.time
    else
      assert Heard(es[..|es| - 1], p) by {
        var i :| 0 <= i < |es| && es[i].Message? && es[i].p == p;
        assert es[..|es| - 1][i] == es[i];
      }
      LastHeard(es[..|es| - 1], p)
  }

  lemma HeardGrows(es: seq<Event>, e: Event, p: Pid)
    ensures Heard(es + [e], p) <==> Heard(es, p) || (e.Message? && e.p == p)
    ensures Heard(es + [e], p) ==>
      LastHeard(es + [e], p) == if e.Message? && e.p == p then e.time else LastHeard(es, p)
  {
    assert (es + [e])[..|es|] == es;
    if Heard(es, p) {
      var i :| 0 <= i < |es| && es[i].Message? && es[i].p == p;
      assert (es + [e])[i] == es[i];
    }
    if e.Message? && e.p == p { assert (es + [e])[|es|] == e; }
    if Heard(es + [e], p) {
      var i :| 0 <= i < |es + [e]| && (es + [e])[i].Message? && (es + [e])[i].p == p;
      if i < |es| { assert es[i] == (es + [e])[i]; }
    }
  }

  // An exit alert sent for a silence that began at time u: after the four seconds of the threshold, and within the two
  // of an interval of them.
  ghost predicate ExitSent(log: seq<Sent>, p: Pid, u: real) {
    exists k | 0 <= k < |log| :: TimelyExit(log[k], p, u)
  }

  predicate TimelyExit(s: Sent, p: Pid, u: real) {
    s.p == p && s.alert == Exit && 4.0 < s.time - u <= 6.0
  }

  ghost predicate PersonTime(w: World, es: seq<Event>, p: Pid) {
    && (p in w.people <==> Heard(es, p))
    && (p in w.people ==>
          && w.people[p].lastUpdate == LastHeard(es, p) <= w.clock
          && if w.people[p].insideRoi then w.lastCheck <= LastHeard(es, p) + INACTIVITY_THRESHOLD
             else ExitSent(w.log, p, LastHeard(es, p)))
  }

  lemma LogGrows(log: seq<Sent>, more: seq<Sent>, p: Pid, u: real)
    requires log <= more && ExitSent(log, p, u)
    ensures ExitSent(more, p, u)
  {
  }

  lemma HappensKeepsPerson(w: World, es: seq<Event>, e: Event, v: World, p: Pid)
    requires Happens(w, e, v) && PersonTime(w, es, p) && w.lastCheck <= w.clock
    ensures PersonTime(v, es + [e], p)
  {
    HeardGrows(es, e, p);
    if p in w.people && ExitSent(w.log, p, LastHeard(es, p)) { LogGrows(w.log, v.log, p, LastHeard(es, p)); }
    if e.Check? && Inactive(w.people, p, e.time) {
      var exits := v.log[|w.log|..];
      var k :| 0 <= k < |exits| && exits[k] == Sent(p, Exit, e.time);
      assert v.log[|w.log| + k] == exits[k];
      assert TimelyExit(v.log[|w.log| + k], p, LastHeard(es, p));
    }
  }

  lemma {:induction false} TimedInv(ws: seq<World>, es: seq<Event>, n: nat, p: Pid)
    requires IsTimedRun(ws, es) && n <= |es|
    ensures PersonTime(ws[n], es[..n], p)
    ensures ws[n].lastCheck <= ws[n].clock <= ws[n].lastCheck + CHECK_INTERVAL
  {
    if n > 0 {
      TimedInv(ws, es, n - 1, p);
      assert Happens(ws[n - 1], es[n - 1], ws[n - 1 + 1]);
      HappensKeepsPerson(ws[n - 1], es[..n - 1], es[n - 1], ws[n], p);
      assert es[..n] == es[..n - 1] + [es[n - 1]];
    }
  }

  /** A person who has been silent for longer than the threshold and one interval has been announced as gone,
      after the threshold and no later than the threshold plus the interval. */
  lemma ExitByDeadline(ws: seq<World>, es: seq<Event>, n: nat, p: Pid)
    requires IsTimedRun(ws, es) && n <= |es| && Heard(es[..n], p)
    requires ws[n].clock > LastHeard(es[..n], p) + 6.0
    ensures p in ws[n].people && !ws[n].people[p].insideRoi && ExitSent(ws[n].log, p, LastHeard(es[..n], p))
  {
    TimedInv(ws, es, n, p);
  }

  /** Conversely, every exit alert follows a silence longer than the threshold and no longer than the
      threshold plus the interval. */
  lemma {:induction false} ExitIsJustified(ws: seq<World>, es: seq<Event>, n: nat, k: nat) returns (m: nat)
    requires IsTimedRun(ws, es) && n <= |es| && k < |ws[n].log| && ws[n].log[k].alert == Exit
    ensures m < n && es[m] == Check(ws[n].log[k].time)
    ensures Heard(es[..m], ws[n].log[k].p)
    ensures TimelyExit(ws[n].log[k], ws[n].log[k].p, LastHeard(es[..m], ws[n].log[k].p))
  {
    assert Happens(ws[n - 1], es[n - 1], ws[n - 1 + 1]);
    var before := ws[n - 1].log;
    if k < |before| {
      m := ExitIsJustified(ws, es, n - 1, k);
    } else {
      m := n - 1;
      var s := ws[n].log[k];
      assert s == ws[n].log[|before|..][k - |before|];
      TimedInv(ws, es, n - 1, s.p);
    }
  }

  // ---------- Entry alerts ----------

  predicate ExitBy(s: Sent, time: real) { s.alert == Exit ==> s.time <= time }

  // Exits are sent by checks.
  lemma {:induction false} ExitsAreChecked(ws: seq<World>, es: seq<Event>, n: nat)
    requires IsTimedRun(ws, es) && n <= |es|
    ensures forall k | 0 <= k < |ws[n].log| :: ExitBy(ws[n].log[k], ws[n].lastCheck)
  {
    if n > 0 {
      ExitsAreChecked(ws, es, n - 1);
      assert Happens(ws[n - 1], es[n - 1], ws[n - 1 + 1]);
      TimedInv(ws, es, n - 1, Pid(0));
      var (before, after) := (ws[n - 1].log, ws[n].log);
      forall k | 0 <= k < |after| ensures ExitBy(after[k], ws[n].lastCheck) {
        if k < |before| {
          assert ExitBy(before[k], ws[n - 1].lastCheck);
        } else {
          assert after[k] == after[|before|..][k - |before|];
        }
      }
    }
  }

  /** A message announces an entry exactly when the person was not heard of before, or has been announced as gone since
      they were last heard of; and it announces nothing else. */
  lemma EntryExactly(ws: seq<World>, es: seq<Event>, n: nat, p: Pid)
    requires IsTimedRun(ws, es) && n < |es| && es[n].Message? && es[n].p == p
    ensures var entered := !Heard(es[..n], p) || ExitSent(ws[n].log, p, LastHeard(es[..n], p));
      ws[n + 1].log == ws[n].log + if entered then [Sent(p, Entry, es[n].time)] else []
  {
    hide LastHeard, Heard;
    TimedInv(ws, es, n, p);
    ExitsAreChecked(ws, es, n);
    assert Happens(ws[n], es[n], ws[n + 1]);
    if p in ws[n].people && ws[n].people[p].insideRoi {
      forall k | 0 <= k < |ws[n].log| ensures !TimelyExit(ws[n].log[k], p, LastHeard(es[..n], p)) {
        assert ExitBy(ws[n].log[k], ws[n].lastCheck);
      }
    }
  }

  /** Every entry alert is that of a message. */
  lemma {:induction false} EntryIsJustified(ws: seq<World>, es: seq<Event>, n: nat, k: nat) returns (m: nat)
    requires IsTimedRun(ws, es) && n <= |es| && k < |ws[n].log| && ws[n].log[k].alert == Entry
    ensures m < n && es[m] == Message(ws[n].log[k].p, ws[n].log[k].time) && |ws[m].log| == k
  {
    assert Happens(ws[n - 1], es[n - 1], ws[n - 1 + 1]);
    var before := ws[n - 1].log;
    if k < |before| {
      m := EntryIsJustified(ws, es, n - 1, k);
    } else {
      m := n - 1;
      assert ws[n].log[k] == ws[n].log[|before|..][k - |before|];
    }
  }
}
