/** backend/main.py as two threads that share person_state with no lock: the MQTT callback on_message and
    the loop check_no_change. Every Python statement is one step, and any interleaving is allowed. */
module PresenceThreads {

  // The object_id of a message.
  datatype Pid = Pid(id: int)

  const INACTIVITY_THRESHOLD: real := 4.0

  datatype Record = Record(lastUpdate: real, insideRoi: bool)

  datatype Alert = Entry | Exit

  // The statement the message thread executes next.
  datatype Message =
    | Waiting
    | TestKnown(p: Pid)
    | Insert(p: Pid)
    | Touch(p: Pid)
    | TestInside(p: Pid)
    | AlertEntry(p: Pid)
    | SetInside(p: Pid)

  // The statement the checker executes next; todo is the rest of list(person_state.items()).
  datatype Checker =
    | ReadClock
    | TakeItems(now: real)
    | NextItem(now: real, todo: seq<Pid>)
    | TestTime(now: real, q: Pid, todo: seq<Pid>)
    | AlertExit(now: real, q: Pid, todo: seq<Pid>)
    | SetOutside(now: real, q: Pid, todo: seq<Pid>)

  datatype State = State(people: map<Pid, Record>, log: seq<(Pid, Alert)>, message: Message, checker: Checker)

  const START := State(map[], [], Waiting, ReadClock)

  // ---------- Steps ----------

  ghost predicate MessageStep(s: State, t: State) {
    match s.message
    case Waiting => exists p :: t == s.(message := TestKnown(p))
    case TestKnown(p) => t == s.(message := if p !in s.people then Insert(p) else Touch(p))
    case Insert(p) => exists time :: t == s.(people := s.people[p := Record(time, false)], message := TestInside(p))
    case Touch(p) =>
      p in s.people
      && exists time :: t == s.(people := s.people[p := s.people[p].(lastUpdate := time)], message := TestInside(p))
    case TestInside(p) =>
      p in s.people && t == s.(message := if !s.people[p].insideRoi then AlertEntry(p) else Waiting)
    case AlertEntry(p) => t == s.(log := s.log + [(p, Entry)], message := SetInside(p))
    case SetInside(p) =>
      p in s.people && t == s.(people := s.people[p := s.people[p].(insideRoi := true)], message := Waiting)
  }

  // An enumeration of the keys, each once.
  ghost predicate Lists(todo: seq<Pid>, keys: set<Pid>) {
    |todo| == |keys| && forall q :: q in todo <==> q in keys
  }

  // The first half of the test: only someone inside has the time tested.
  function AfterRoiTest(r: Record, now: real, todo: seq<Pid>): Checker
    requires todo != []
  {
    if r.insideRoi then TestTime(now, todo[0], todo[1..]) else NextItem(now, todo[1..])
  }

  ghost predicate CheckerStep(s: State, t: State) {
    match s.checker
    case ReadClock => exists now :: t == s.(checker := TakeItems(now))
    case TakeItems(now) =>
      exists todo: seq<Pid> :: Lists(todo, s.people.Keys) && t == s.(checker := NextItem(now, todo))
    case NextItem(now, todo) =>
      if todo == [] then t == s.(checker := ReadClock)
      else todo[0] in s.people && t == s.(checker := AfterRoiTest(s.people[todo[0]], now, todo))
    case TestTime(now, q, todo) =>
      q in s.people
      && t == s.(checker := if now - s.people[q].lastUpdate > INACTIVITY_THRESHOLD then AlertExit(now, q, todo)
                            else NextItem(now, todo))
    case AlertExit(now, q, todo) => t == s.(log := s.log + [(q, Exit)], checker := SetOutside(now, q, todo))
    case SetOutside(now, q, todo) =>
      q in s.people
      && t == s.(people := s.people[q := s.people[q].(insideRoi := false)], checker := NextItem(now, todo))
  }

  ghost predicate Next(s: State, t: State) { MessageStep(s, t) || CheckerStep(s, t) }

  ghost predicate IsRun(run: seq<State>) {
    |run| > 0 && run[0] == START && forall i | 0 <= i < |run| - 1 :: Next(run[i], run[i + 1])
  }

  // ---------- Alerts of one person ----------

  function History(log: seq<(Pid, Alert)>, p: Pid): seq<Alert> {
    if |log| == 0 then []
    else
      var h := History(log[..|log| - 1], p);
      if log[|log| - 1].0 == p then h + [log[|log| - 1].1] else h
  }

  ghost predicate Alternates(h: seq<Alert>) {
    forall i | 0 <= i < |h| :: h[i] == if i % 2 == 0 then Entry else Exit
  }

  lemma HistoryGrows(log: seq<(Pid, Alert)>, q: Pid, a: Alert, p: Pid)
    ensures History(log + [(q, a)], p) == History(log, p) + if q == p then [a] else []
  {
  }

  predicate Inside(s: State, p: Pid) { p in s.people && s.people[p].insideRoi }

  predicate AboutToEnter(s: State, p: Pid) { s.message == SetInside(p) }

  predicate AboutToLeave(s: State, p: Pid) { s.checker.SetOutside? && s.checker.q == p }

  /** The state of one person: inside exactly after an odd number of alerts, except in the two windows
      between an alert and the assignment that follows it; and the windows exclude each other. */
  ghost predicate PersonInv(s: State, p: Pid) {
    var h := History(s.log, p);
    && Alternates(h)
    && (s.message == AlertEntry(p) || AboutToEnter(s, p) ==> p in s.people && !Inside(s, p))
    && ((s.checker.AlertExit? && s.checker.q == p) || AboutToLeave(s, p) || (s.checker.TestTime? && s.checker.q == p)
        ==> Inside(s, p))
    && (|h| % 2 == 1 <==> if AboutToEnter(s, p) then true else if AboutToLeave(s, p) then false else Inside(s, p))
  }

  // Both threads only use keys that are in the dictionary, and only the message thread adds one.
  predicate KeysInv(s: State) {
    && (s.message.Insert? ==> s.message.p !in s.people)
    && (s.message.Touch? || s.message.TestInside? ==> s.message.p in s.people)
    && (!s.checker.ReadClock? && !s.checker.TakeItems? ==> forall q | q in s.checker.todo :: q in s.people)
  }

  ghost predicate Inv(s: State) { KeysInv(s) && forall p: Pid :: PersonInv(s, p) }

  lemma MessageKeepsPerson(s: State, t: State, p: Pid)
    requires KeysInv(s) && PersonInv(s, p) && MessageStep(s, t)
    ensures PersonInv(t, p)
  {
    if s.message.AlertEntry? { HistoryGrows(s.log, s.message.p, Entry, p); }
  }

  lemma CheckerKeepsPerson(s: State, t: State, p: Pid)
    requires KeysInv(s) && PersonInv(s, p) && CheckerStep(s, t)
    ensures PersonInv(t, p)
  {
    if s.checker.AlertExit? { HistoryGrows(s.log, s.checker.q, Exit, p); }
  }

  lemma NextKeepsInv(s: State, t: State)
    requires Inv(s) && Next(s, t)
    ensures Inv(t)
  {
    assert KeysInv(t);
    forall p: Pid ensures PersonInv(t, p) {
      assert PersonInv(s, p);
      if MessageStep(s, t) { MessageKeepsPerson(s, t, p); } else { CheckerKeepsPerson(s, t, p); }
    }
  }

  lemma {:induction false} RunKeepsInv(run: seq<State>, n: nat)
    requires IsRun(run) && n < |run|
    ensures Inv(run[n])
  {
    if n > 0 {
      RunKeepsInv(run, n - 1);
      assert Next(run[n - 1], run[n - 1 + 1]);
      NextKeepsInv(run[n - 1], run[n]);
    }
  }

  /** Under every interleaving each person's alerts are entry, exit, entry, ... starting with entry. */
  lemma AlertsAlternate(run: seq<State>, n: nat, p: Pid)
    requires IsRun(run) && n < |run|
    ensures Alternates(History(run[n].log, p))
  {
    RunKeepsInv(run, n);
    assert PersonInv(run[n], p);
  }

  /** No thread is ever stuck on a missing key: at every point of a run both threads have a next step. */
  lemma NeverStuck(run: seq<State>, n: nat)
    requires IsRun(run) && n < |run|
    ensures exists t :: MessageStep(run[n], t)
    ensures exists t :: CheckerStep(run[n], t)
  {
    RunKeepsInv(run, n);
    var s := run[n];
    MessageCanMove(s);
    CheckerCanMove(s);
  }

  lemma MessageCanMove(s: State)
    requires Inv(s)
    ensures exists t :: MessageStep(s, t)
  {
    if s.message.AlertEntry? || s.message.SetInside? { assert PersonInv(s, s.message.p); }
    var t := match s.message
      case Waiting => s.(message := TestKnown(Pid(0)))
      case TestKnown(p) => s.(message := if p !in s.people then Insert(p) else Touch(p))
      case Insert(p) => s.(people := s.people[p := Record(0.0, false)], message := TestInside(p))
      case Touch(p) => s.(people := s.people[p := s.people[p].(lastUpdate := 0.0)], message := TestInside(p))
      case TestInside(p) => s.(message := if !s.people[p].insideRoi then AlertEntry(p) else Waiting)
      case AlertEntry(p) => s.(log := s.log + [(p, Entry)], message := SetInside(p))
      case SetInside(p) => s.(people := s.people[p := s.people[p].(insideRoi := true)], message := Waiting);
    assert MessageStep(s, t);
  }

  lemma CheckerCanMove(s: State)
    requires Inv(s)
    ensures exists t :: CheckerStep(s, t)
  {
    if s.checker.TestTime? || s.checker.AlertExit? || s.checker.SetOutside? { assert PersonInv(s, s.checker.q); }
    match s.checker
    case ReadClock => assert CheckerStep(s, s.(checker := TakeItems(0.0)));
    case TakeItems(now) =>
      var todo := Enumerate(s.people.Keys);
      assert CheckerStep(s, s.(checker := NextItem(now, todo)));
    case NextItem(now, todo) =>
      if todo == [] {
        assert CheckerStep(s, s.(checker := ReadClock));
      } else {
        assert todo == s.checker.todo && todo[0] in s.checker.todo;
        assert todo[0] in s.people;
        var t := s.(checker := AfterRoiTest(s.people[todo[0]], now, todo));
        assert CheckerStep(s, t);
      }
    case TestTime(now, q, todo) =>
      var t := s.(checker := if now - s.people[q].lastUpdate > INACTIVITY_THRESHOLD then AlertExit(now, q, todo)
                             else NextItem(now, todo));
      assert CheckerStep(s, t);
    case AlertExit(now, q, todo) =>
      assert CheckerStep(s, s.(log := s.log + [(q, Exit)], checker := SetOutside(now, q, todo)));
    case SetOutside(now, q, todo) =>
      var t := s.(people := s.people[q := s.people[q].(insideRoi := false)], checker := NextItem(now, todo));
      assert CheckerStep(s, t);
  }

  lemma Enumerate(keys: set<Pid>) returns (todo: seq<Pid>)
    ensures Lists(todo, keys)
  {
    todo := [];
    var rest := keys;
    while rest != {}
      invariant rest <= keys && |todo| == |keys| - |rest|
      invariant forall q :: q in todo <==> q in keys && q !in rest
      decreases rest
    {
      var q :| q in rest;
      todo, rest := todo + [q], rest - {q};
    }
  }

  // ---------- A pass of the checker meets everyone ----------

  // The checker will still come to p in this pass.
  predicate Ahead(s: State, p: Pid) {
    match s.checker
    case ReadClock => false
    case TakeItems(_) => p in s.people
    case NextItem(_, todo) => p in todo
    case TestTime(_, _, todo) => p in todo
    case AlertExit(_, _, todo) => p in todo
    case SetOutside(_, _, todo) => p in todo
  }

  // Step j is the first half of the test of p, which is inside_roi.
  predicate TestsAt(run: seq<State>, j: nat, p: Pid)
    requires j + 1 < |run|
  {
    && run[j].checker.NextItem? && run[j].checker.todo != [] && run[j].checker.todo[0] == p && p in run[j].people
    && run[j + 1].people == run[j].people
    && (if run[j].people[p].insideRoi then run[j + 1].checker.TestTime? && run[j + 1].checker.q == p
        else run[j + 1].checker == NextItem(run[j].checker.now, run[j].checker.todo[1..]))
  }

  lemma AheadStep(s: State, t: State, p: Pid)
    requires Inv(s) && Next(s, t) && Ahead(s, p)
    ensures Ahead(t, p) || TestsAt([s, t], 0, p)
  {
    if s.checker.NextItem? { assert s.checker.todo[0] in s.checker.todo; }
  }

  /** Everyone known when the checker lists the dictionary is tested before it reads the clock again, whatever the
      message thread does meanwhile. */
  lemma {:induction false} PassMeetsEveryone(run: seq<State>, m: nat, n: nat, p: Pid) returns (j: nat)
    requires IsRun(run) && m < n < |run| && Ahead(run[m], p) && run[n].checker.ReadClock?
    ensures m <= j < n && TestsAt(run, j, p)
    decreases n - m
  {
    hide Inv, Next, Ahead;
    RunKeepsInv(run, m);
    assert Next(run[m], run[m + 1]);
    AheadStep(run[m], run[m + 1], p);
    if Ahead(run[m + 1], p) {
      NotYetOver(run[n], p);
      j := PassMeetsEveryone(run, m + 1, n, p);
    } else {
      j := m;
    }
  }

  lemma NotYetOver(s: State, p: Pid)
    requires s.checker.ReadClock?
    ensures !Ahead(s, p)
  {
  }

  /** The second half of the test announces an exit exactly after more than four seconds without an update. */
  lemma TimeTestDecides(run: seq<State>, j: nat)
    requires IsRun(run) && j + 1 < |run| && run[j].checker.TestTime? && run[j + 1].checker != run[j].checker
    ensures var (now, q, todo) := (run[j].checker.now, run[j].checker.q, run[j].checker.todo);
      && q in run[j].people && run[j + 1].people == run[j].people && run[j + 1].log == run[j].log
      && run[j + 1].checker ==
           if now - run[j].people[q].lastUpdate > 4.0 then AlertExit(now, q, todo) else NextItem(now, todo)
  {
    assert Next(run[j], run[j + 1]);
  }

  // ---------- What the missing lock costs ----------

  // The checker is about to announce the exit of someone it would no longer find inactive.
  predicate StaleExit(s: State) {
    s.checker.AlertExit? && s.checker.q in s.people
    && s.checker.now - s.people[s.checker.q].lastUpdate <= INACTIVITY_THRESHOLD
  }

  lemma Extend(run: seq<State>, t: State) returns (longer: seq<State>)
    requires IsRun(run) && Next(run[|run| - 1], t)
    ensures IsRun(longer) && longer[|longer| - 1] == t
  {
    longer := run + [t];
    forall i | 0 <= i < |longer| - 1 ensures Next(longer[i], longer[i + 1]) {
      if i < |run| - 1 { assert Next(run[i], run[i + 1]); }
    }
  }

  // A person enters: the statements of the first message about p, received at the given time.
  lemma FirstMessage(p: Pid, time: real) returns (run: seq<State>)
    ensures IsRun(run)
    ensures run[|run| - 1] == State(map[p := Record(time, true)], [(p, Entry)], Waiting, ReadClock)
  {
    var outside := map[p := Record(time, false)];
    run := [START];
    run := Extend(run, State(map[], [], TestKnown(p), ReadClock));
    run := Extend(run, State(map[], [], Insert(p), ReadClock));
    assert MessageStep(run[|run| - 1], State(outside, [], TestInside(p), ReadClock));
    run := Extend(run, State(outside, [], TestInside(p), ReadClock));
    run := Extend(run, State(outside, [], AlertEntry(p), ReadClock));
    run := Extend(run, State(outside, [(p, Entry)], SetInside(p), ReadClock));
    run := Extend(run, State(map[p := Record(time, true)], [(p, Entry)], Waiting, ReadClock));
  }

  // Step j of the run is the assignment of last_update for q in the message thread.
  predicate TouchesAt(run: seq<State>, j: nat, q: Pid)
    requires j + 1 < |run|
  {
    run[j].message == Touch(q) && run[j + 1].message == TestInside(q)
  }

  // The last such step from k on and before n.
  function LastTouch(run: seq<State>, k: nat, n: nat, q: Pid): (r: int)
    requires k <= n < |run|
    ensures r == -1 || (k <= r < n && TouchesAt(run, r, q))
    ensures forall j | k <= j < n && TouchesAt(run, j, q) :: j <= r
    decreases n
  {
    if n == k then -1 else if TouchesAt(run, n - 1, q) then n - 1 else LastTouch(run, k, n - 1, q)
  }

  /** The checker tested q at state k and has had its alert ahead of it ever since, up to state n. */
  ghost predicate Pending(run: seq<State>, k: nat, n: nat, now: real, q: Pid) {
    && k < n < |run|
    && run[k].checker.TestTime? && run[k].checker.now == now && run[k].checker.q == q
    && forall j | k < j <= n :: run[j].checker.AlertExit? && run[j].checker.now == now && run[j].checker.q == q
  }

  /** Since the test at k the last update of q came no more than the threshold after the checker read its clock. */
  predicate UpdatedSince(run: seq<State>, k: nat, n: nat, now: real, q: Pid)
    requires k <= n < |run|
  {
    var j := LastTouch(run, k, n, q);
    j >= 0 && q in run[j + 1].people && now - run[j + 1].people[q].lastUpdate <= INACTIVITY_THRESHOLD
  }

  // The time between q's last update and the checker's clock is within the threshold.
  predicate Fresh(s: State, now: real, q: Pid) { q in s.people && now - s.people[q].lastUpdate <= INACTIVITY_THRESHOLD }

  // The step that reaches the alert is the test, which found q inactive.
  lemma AlertReachedInactive(s: State, t: State)
    requires Inv(s) && Next(s, t) && s.checker.TestTime? && t.checker.AlertExit?
    ensures t.checker.q == s.checker.q && t.checker.now == s.checker.now
    ensures t.message == s.message && !Fresh(t, t.checker.now, t.checker.q)
  {
  }

  // While the alert is ahead only an update of q changes its time.
  lemma OnlyTouchRefreshes(s: State, t: State, q: Pid)
    requires Inv(s) && Next(s, t) && s.checker.AlertExit? && t.checker.AlertExit? && s.checker.q == q
    ensures q in s.people && q in t.people
    ensures if s.message == Touch(q) then t.message == TestInside(q)
            else t.people[q].lastUpdate == s.people[q].lastUpdate
  {
    assert PersonInv(s, q);
  }

  lemma {:induction false} FreshExactly(run: seq<State>, k: nat, n: nat, now: real, q: Pid)
    requires IsRun(run) && Pending(run, k, n, now, q)
    ensures Fresh(run[n], now, q) <==> UpdatedSince(run, k, n, now, q)
    decreases n
  {
    hide Inv, MessageStep, CheckerStep, Next;
    RunKeepsInv(run, n - 1);
    assert Next(run[n - 1], run[n - 1 + 1]);
    if n - 1 == k {
      AlertReachedInactive(run[k], run[n]);
    } else {
      FreshExactly(run, k, n - 1, now, q);
      OnlyTouchRefreshes(run[n - 1], run[n], q);
    }
  }

  // Every alert ahead goes back to a test.
  lemma {:induction false} AlertWasTested(run: seq<State>, n: nat) returns (k: nat)
    requires IsRun(run) && n < |run| && run[n].checker.AlertExit?
    ensures Pending(run, k, n, run[n].checker.now, run[n].checker.q)
  {
    assert Next(run[n - 1], run[n - 1 + 1]);
    if run[n - 1].checker.TestTime? { k := n - 1; } else { k := AlertWasTested(run, n - 1); }
  }

  /** Exactly when an exit is announced for a person no longer inactive, in every run: an update of that person was
      stored after the checker's test, and the last one is within the threshold of the clock the test used. */
  lemma StaleExitExactly(run: seq<State>, n: nat) returns (k: nat)
    requires IsRun(run) && n < |run| && run[n].checker.AlertExit?
    ensures Pending(run, k, n, run[n].checker.now, run[n].checker.q)
    ensures StaleExit(run[n]) <==> UpdatedSince(run, k, n, run[n].checker.now, run[n].checker.q)
  {
    k := AlertWasTested(run, n);
    FreshExactly(run, k, n, run[n].checker.now, run[n].checker.q);
  }

  /** Without an update between the test and the alert the person announced is inactive. */
  lemma ExitWithoutUpdateIsRight(run: seq<State>, k: nat, n: nat, now: real, q: Pid)
    requires IsRun(run) && Pending(run, k, n, now, q)
    requires forall j | k <= j < n :: !TouchesAt(run, j, q)
    ensures q in run[n].people && now - run[n].people[q].lastUpdate > INACTIVITY_THRESHOLD
  {
    FreshExactly(run, k, n, now, q);
    RunKeepsInv(run, n);
    assert PersonInv(run[n], q);
  }

  /** The condition occurs: here person 7 is seen at time 0,
      found inactive at time 5, and seen again at time 5 before the alert. */
  lemma ExitMayIgnoreUpdate() returns (run: seq<State>)
    ensures IsRun(run) && StaleExit(run[|run| - 1])
  {
    var seven := Pid(7);
    var people, log := map[seven := Record(0.0, true)], [(seven, Entry)];
    run := FirstMessage(seven, 0.0);
    var items: seq<Pid> := [seven];
    assert people.Keys == {seven} && Lists(items, people.Keys);
    assert CheckerStep(run[|run| - 1], State(people, log, Waiting, TakeItems(5.0)));
    run := Extend(run, State(people, log, Waiting, TakeItems(5.0)));
    assert CheckerStep(run[|run| - 1], State(people, log, Waiting, NextItem(5.0, items)));
    run := Extend(run, State(people, log, Waiting, NextItem(5.0, items)));
    run := Extend(run, State(people, log, Waiting, TestTime(5.0, seven, items[1..])));
    run := Extend(run, State(people, log, Waiting, AlertExit(5.0, seven, items[1..])));
    assert MessageStep(run[|run| - 1], State(people, log, TestKnown(seven), AlertExit(5.0, seven, items[1..])));
    run := Extend(run, State(people, log, TestKnown(seven), AlertExit(5.0, seven, items[1..])));
    run := Extend(run, State(people, log, Touch(seven), AlertExit(5.0, seven, items[1..])));
    var t := State(people[seven := Record(5.0, true)], log, TestInside(seven), AlertExit(5.0, seven, items[1..]));
    var seen := people[seven := people[seven].(lastUpdate := 5.0)];
    assert t == run[|run| - 1].(people := seen, message := TestInside(seven));
    assert MessageStep(run[|run| - 1], t);
    run := Extend(run, t);
  }
}
