/**
 * The registry of running requests, as a state machine over the steps that requests take between
 * taking and releasing the lock. Any number of requests run interleaved.
 */
module RunRegistry {

  /** A request has looked for a predecessor, is registered, has marked itself cancelled, or has left. */
  datatype Phase = Checked | Registered | Marked | Left

  datatype RunState = RunState(group: string, phase: Phase, contextCancelled: bool, consumerClosed: bool,
                               isCancelled: bool)

  /** `running` holds at most one request for each topic and group. */
  datatype State = State(runs: map<nat, RunState>, running: map<string, nat>)

  const EMPTY := State(map[], map[])

  /**
   * `Check` cancels and closes whatever is registered for the group; `Abort` gives up before
   * registering; `Cancel` is the poll loop's own cancellation; `Mark` and `Delete` are the two
   * halves of the cleanup, of which the second deletes by key, whoever is registered there.
   */
  datatype Event =
    | Check(id: nat, group: string) | Abort(id: nat) | Register(id: nat)
    | Cancel(id: nat) | Mark(id: nat) | Delete(id: nat)

  predicate Enabled(s: State, e: Event) {
    match e
    case Check(id, _) => id !in s.runs
    case Abort(id) => id in s.runs && s.runs[id].phase == Checked
    case Register(id) => id in s.runs && s.runs[id].phase == Checked
    case Cancel(id) => id in s.runs && s.runs[id].phase == Registered
    case Mark(id) => id in s.runs && s.runs[id].phase == Registered
    case Delete(id) => id in s.runs && s.runs[id].phase == Marked
  }

  function Superseded(r: RunState): RunState {
    r.(contextCancelled := true, consumerClosed := r.consumerClosed || !r.isCancelled)
  }

  function Entrant(group: string): RunState {
    RunState(group, Checked, false, false, false)
  }

  /** Cancels the context of whatever is registered for the group, and closes its consumer. */
  function CancelPrevious(s: State, group: string): State {
    if group in s.running && s.running[group] in s.runs then
      s.(runs := s.runs[s.running[group] := Superseded(s.runs[s.running[group]])])
    else s
  }

  /** One step; an event that cannot happen changes nothing. */
  function Step(s: State, e: Event): State {
    if !Enabled(s, e) then s else
    match e
    case Check(id, group) =>
      var next := CancelPrevious(s, group);
      next.(runs := next.runs[id := Entrant(group)])
    case Abort(id) => s.(runs := s.runs[id := s.runs[id].(phase := Left, contextCancelled := true)])
    case Register(id) => State(s.runs[id := s.runs[id].(phase := Registered)], s.running[s.runs[id].group := id])
    case Cancel(id) => s.(runs := s.runs[id := s.runs[id].(contextCancelled := true)])
    case Mark(id) => s.(runs := s.runs[id := Superseded(s.runs[id]).(phase := Marked, isCancelled := true)])
    case Delete(id) => State(s.runs[id := s.runs[id].(phase := Left)], s.running - {s.runs[id].group})
  }

  function Trace(s: State, events: seq<Event>): State {
    if events == [] then s else Step(Trace(s, events[..|events| - 1]), events[|events| - 1])
  }

  /** A run that says it is cancelled has a cancelled context and a closed consumer, and is cleaning up. */
  ghost predicate Honest(s: State) {
    forall i | i in s.runs && s.runs[i].isCancelled ::
      s.runs[i].contextCancelled && s.runs[i].consumerClosed && (s.runs[i].phase == Marked || s.runs[i].phase == Left)
  }

  lemma StepIsHonest(s: State, e: Event)
    requires Honest(s)
    ensures Honest(Step(s, e))
    ensures forall i | i in s.runs :: i in Step(s, e).runs && (s.runs[i].isCancelled ==> Step(s, e).runs[i].isCancelled)
  {
  }

  lemma {:induction false} TraceIsHonest(events: seq<Event>)
    ensures Honest(Trace(EMPTY, events))
  {
    if events != [] {
      TraceIsHonest(events[..|events| - 1]);
      StepIsHonest(Trace(EMPTY, events[..|events| - 1]), events[|events| - 1]);
    }
  }

  /** In every interleaving, what is marked as cancelled is cancelled and closed, and stays so. */
  lemma {:induction false} CancelledForGood(events: seq<Event>, more: seq<Event>, i: nat)
    requires i in Trace(EMPTY, events).runs && Trace(EMPTY, events).runs[i].isCancelled
    ensures var s := Trace(EMPTY, events + more);
            i in s.runs && s.runs[i].isCancelled && s.runs[i].contextCancelled && s.runs[i].consumerClosed
  {
    TraceIsHonest(events + more);
    if more == [] {
      assert events + more == events;
    } else {
      var all := events + more;
      assert all[..|all| - 1] == events + more[..|more| - 1];
      CancelledForGood(events, more[..|more| - 1], i);
      TraceIsHonest(all[..|all| - 1]);
      StepIsHonest(Trace(EMPTY, all[..|all| - 1]), all[|all| - 1]);
    }
  }

  /** A registered run whose context is not cancelled. */
  predicate Live(s: State, i: nat) {
    i in s.runs && s.runs[i].phase == Registered && !s.runs[i].contextCancelled
  }

  /** No two requests of a group are between their check and their registration at the same time. */
  predicate SeparateWindows(s: State, e: Event) {
    e.Check? ==> forall i | i in s.runs :: s.runs[i].group == e.group ==> s.runs[i].phase != Checked
  }

  /** No cleanup deletes the entry of a live run. */
  predicate LiveEntryKept(s: State, e: Event) {
    e.Delete? && e.id in s.runs && s.runs[e.id].group in s.running ==> !Live(s, s.running[s.runs[e.id].group])
  }

  /** An event that cannot happen is in order. */
  predicate Orderly(s: State, e: Event) {
    Enabled(s, e) ==> SeparateWindows(s, e) && LiveEntryKept(s, e)
  }

  predicate OrderlyTrace(s: State, events: seq<Event>) {
    events == [] || (OrderlyTrace(s, events[..|events| - 1])
                     && Orderly(Trace(s, events[..|events| - 1]), events[|events| - 1]))
  }

  /** Live runs are registered, and while a request is about to register there is none in its group. */
  ghost predicate Exclusive(s: State) {
    && (forall g | g in s.running :: s.running[g] in s.runs && s.runs[s.running[g]].group == g)
    && (forall i | Live(s, i) :: s.runs[i].group in s.running && s.running[s.runs[i].group] == i)
    && (forall i, j | i in s.runs && s.runs[i].phase == Checked && j in s.runs
        && s.runs[j].group == s.runs[i].group :: !Live(s, j))
    && (forall i, j | i in s.runs && s.runs[i].phase == Checked && j in s.runs && s.runs[j].phase == Checked
        && s.runs[j].group == s.runs[i].group :: i == j)
  }

  lemma CancelIsExclusive(s: State, group: string)
    requires Exclusive(s)
    ensures Exclusive(CancelPrevious(s, group))
    ensures forall i | Live(CancelPrevious(s, group), i) :: CancelPrevious(s, group).runs[i].group != group
  {
    var t := CancelPrevious(s, group);
    assert t.runs.Keys == s.runs.Keys && t.running == s.running;
    assert forall i | i in s.runs :: t.runs[i].phase == s.runs[i].phase && t.runs[i].group == s.runs[i].group;
    assert forall i | Live(t, i) :: Live(s, i) && s.runs[i].group != group;
  }

  lemma EntranceIsExclusive(s: State, id: nat, group: string)
    requires Exclusive(s) && id !in s.runs
    requires forall i | i in s.runs && s.runs[i].group == group :: s.runs[i].phase != Checked && !Live(s, i)
    ensures Exclusive(s.(runs := s.runs[id := Entrant(group)]))
  {
    var t := s.(runs := s.runs[id := Entrant(group)]);
    assert forall i | i in t.runs :: i == id || (i in s.runs && t.runs[i] == s.runs[i] && Live(t, i) == Live(s, i));
    assert !Live(t, id);
  }

  lemma CheckIsExclusive(s: State, id: nat, group: string)
    requires Exclusive(s) && Orderly(s, Check(id, group))
    ensures Exclusive(Step(s, Check(id, group)))
  {
    if Enabled(s, Check(id, group)) {
      CancelIsExclusive(s, group);
      hide Exclusive;
      EntranceIsExclusive(CancelPrevious(s, group), id, group);
    }
  }

  lemma RegisterIsExclusive(s: State, id: nat)
    requires Exclusive(s)
    ensures Exclusive(Step(s, Register(id)))
  {
    if Enabled(s, Register(id)) {
      var t := Step(s, Register(id));
      assert forall i | Live(t, i) && i != id :: Live(s, i) && s.runs[i].group != s.runs[id].group;
    }
  }

  lemma DeleteIsExclusive(s: State, id: nat)
    requires Exclusive(s) && Orderly(s, Delete(id))
    ensures Exclusive(Step(s, Delete(id)))
  {
    if Enabled(s, Delete(id)) {
      var t := Step(s, Delete(id));
      assert forall i | Live(t, i) :: Live(s, i) && s.runs[i].group != s.runs[id].group;
    }
  }

  lemma OtherIsExclusive(s: State, e: Event)
    requires Exclusive(s) && !e.Check? && !e.Register? && !e.Delete?
    ensures Exclusive(Step(s, e))
  {
    if Enabled(s, e) {
      var t := Step(s, e);
      assert t.runs.Keys == s.runs.Keys;
      assert forall i | i in s.runs ::
             t.runs[i].group == s.runs[i].group && (t.runs[i].phase == Checked ==> s.runs[i].phase == Checked);
      assert forall i | Live(t, i) :: Live(s, i) && i != e.id;
    }
  }

  /** A step keeps runs exclusive exactly if it is in order. */
  lemma StepIsExclusiveIff(s: State, e: Event)
    requires Exclusive(s)
    ensures Exclusive(Step(s, e)) <==> Orderly(s, e)
  {
    if Orderly(s, e) {
      match e
      case Check(id, group) => CheckIsExclusive(s, id, group);
      case Register(id) => RegisterIsExclusive(s, id);
      case Delete(id) => DeleteIsExclusive(s, id);
      case _ => OtherIsExclusive(s, e);
    } else if !SeparateWindows(s, e) {
      SharedWindowIsNotExclusive(s, e.id, e.group);
    } else {
      LostEntryIsNotExclusive(s, e.id);
    }
  }

  lemma SharedWindowIsNotExclusive(s: State, id: nat, group: string)
    requires Enabled(s, Check(id, group)) && !SeparateWindows(s, Check(id, group))
    ensures !Exclusive(Step(s, Check(id, group)))
  {
    var t := Step(s, Check(id, group));
    var i :| i in s.runs && s.runs[i].group == group && s.runs[i].phase == Checked;
    assert t.runs[i].phase == Checked && t.runs[i].group == group && t.runs[id].phase == Checked && i != id;
  }

  lemma LostEntryIsNotExclusive(s: State, id: nat)
    requires Enabled(s, Delete(id)) && !LiveEntryKept(s, Delete(id)) && Exclusive(s)
    ensures !Exclusive(Step(s, Delete(id)))
  {
    var t := Step(s, Delete(id));
    var j := s.running[s.runs[id].group];
    assert Live(t, j) && t.runs[j].group !in t.running;
  }

  /** A trace is in order exactly if it stays exclusive all the way. */
  lemma {:induction false} OrderlyTraceIff(s: State, events: seq<Event>)
    requires Exclusive(s)
    ensures OrderlyTrace(s, events) <==> forall n | 0 <= n <= |events| :: Exclusive(Trace(s, events[..n]))
  {
    hide Exclusive, Orderly;
    if events == [] {
      assert forall n | 0 <= n <= |events| :: Trace(s, events[..n]) == s;
    } else {
      var init := events[..|events| - 1];
      OrderlyTraceIff(s, init);
      assert forall n | 0 <= n < |events| :: events[..n] == init[..n];
      assert events[..|events|] == events && init[..|init|] == init;
      if Exclusive(Trace(s, init)) {
        StepIsExclusiveIff(Trace(s, init), events[|events| - 1]);
      }
      assert Trace(s, events) == Step(Trace(s, init), events[|events| - 1]);
      if OrderlyTrace(s, events) {
        forall n | 0 <= n <= |events| ensures Exclusive(Trace(s, events[..n])) {
          if n < |events| { assert Exclusive(Trace(s, init[..n])); }
        }
      }
      if forall n | 0 <= n <= |events| :: Exclusive(Trace(s, events[..n])) {
        forall n | 0 <= n <= |init| ensures Exclusive(Trace(s, init[..n])) {
          assert Exclusive(Trace(s, events[..n]));
        }
        assert Exclusive(Trace(s, events[..|init|])) && Exclusive(Trace(s, events[..|events|]));
      }
    }
  }

  /** At most one run of a topic and group is live. */
  ghost predicate AtMostOneLive(s: State) {
    forall i, j | Live(s, i) && Live(s, j) && s.runs[i].group == s.runs[j].group :: i == j
  }

  /** In every orderly interleaving at most one run of a topic and group is live. */
  lemma OneLiveRun(events: seq<Event>)
    requires OrderlyTrace(EMPTY, events)
    ensures AtMostOneLive(Trace(EMPTY, events))
  {
    OrderlyTraceIff(EMPTY, events);
    assert events[..|events|] == events && Exclusive(Trace(EMPTY, events[..|events|]));
  }

  /** What holds in every state that is reached, in order or not. */
  ghost predicate Sound(s: State) {
    && (forall g | g in s.running ::
        s.running[g] in s.runs && s.runs[s.running[g]].group == g && s.runs[s.running[g]].phase != Checked)
    && (forall i | i in s.runs && s.runs[i].phase == Checked :: !s.runs[i].contextCancelled)
  }

  lemma StepIsSound(s: State, e: Event)
    requires Sound(s)
    ensures Sound(Step(s, e))
  {
  }

  lemma {:induction false} TraceIsSound(s: State, events: seq<Event>)
    requires Sound(s)
    ensures Sound(Trace(s, events))
  {
    if events != [] {
      TraceIsSound(s, events[..|events| - 1]);
      StepIsSound(Trace(s, events[..|events| - 1]), events[|events| - 1]);
    }
  }

  /** Both conditions are needed in every state: two requests in their windows together both come to run... */
  lemma OverlappingWindowsBreakIt(s: State, i: nat, j: nat)
    requires i != j && i in s.runs && j in s.runs && s.runs[i].group == s.runs[j].group
    requires s.runs[i].phase == Checked && s.runs[j].phase == Checked
    requires !s.runs[i].contextCancelled && !s.runs[j].contextCancelled
    ensures var t := Step(Step(s, Register(i)), Register(j)); Live(t, i) && Live(t, j)
  {
  }

  /** ... and after a cleanup that deletes the entry of a live successor, the next request runs beside that one. */
  lemma ForeignDeleteBreaksIt(s: State, previous: nat, successor: nat, third: nat)
    requires previous in s.runs && s.runs[previous].phase == Marked && third !in s.runs
    requires Live(s, successor) && s.runs[successor].group == s.runs[previous].group
    ensures var t := Step(Step(Step(s, Delete(previous)), Check(third, s.runs[previous].group)), Register(third));
            Live(t, successor) && Live(t, third) && t.runs[third].group == t.runs[successor].group
  {
    var g := s.runs[previous].group;
    var s1 := Step(s, Delete(previous));
    assert g !in s1.running && Live(s1, successor) && third !in s1.runs;
    var s2 := Step(s1, Check(third, g));
    assert Live(s2, successor) && Enabled(s2, Register(third)) && !s2.runs[third].contextCancelled;
  }

  /** Both states are reached: the second by a request that is superseded while it runs. */
  lemma BothOccur()
    ensures var s := Trace(EMPTY, [Check(0, "g"), Check(1, "g")]);
            s.runs.Keys == {0, 1} && s.runs[0] == s.runs[1] == RunState("g", Checked, false, false, false)
    ensures var s := Trace(EMPTY, [Check(0, "g"), Register(0), Check(1, "g"), Register(1), Mark(0)]);
            0 in s.runs && s.runs[0].phase == Marked && s.runs[0].group == "g" && Live(s, 1) && s.runs[1].group == "g"
  {
    var windows := [Check(0, "g"), Check(1, "g")];
    assert windows[..1][..0] == [] && Trace(EMPTY, windows[..1]) == Step(EMPTY, windows[0]);
    var events := [Check(0, "g"), Register(0), Check(1, "g"), Register(1), Mark(0)];
    FirstFour(events);
    var s4 := Trace(EMPTY, events[..4]);
    assert Live(s4, 1) && 0 in s4.runs && s4.runs[0].phase == Registered && s4.runs[0].group == "g"
           && s4.runs[1].group == "g";
  }

  lemma FirstFour(events: seq<Event>)
    requires |events| >= 4
    ensures Trace(EMPTY, events[..4]) == Step(Step(Step(Step(EMPTY, events[0]), events[1]), events[2]), events[3])
  {
    assert events[..4][..3] == events[..3] && events[..3][..2] == events[..2] && events[..2][..1] == events[..1]
           && events[..1][..0] == [];
    hide Step;
    assert Trace(EMPTY, events[..1]) == Step(EMPTY, events[0]);
    assert Trace(EMPTY, events[..2]) == Step(Trace(EMPTY, events[..1]), events[1]);
    assert Trace(EMPTY, events[..3]) == Step(Trace(EMPTY, events[..2]), events[2]);
  }

  lemma {:induction false} FreshId(ids: set<nat>) returns (id: nat)
    ensures forall i | i in ids :: i < id
  {
    if ids == {} {
      id := 0;
    } else {
      var i :| i in ids;
      var rest := FreshId(ids - {i});
      id := if i < rest then rest else i + 1;
      assert forall j | j in ids && j != i :: j in ids - {i};
    }
  }

  lemma TwoSteps(s: State, d: Event, e: Event)
    ensures Trace(s, [d, e]) == Step(Step(s, d), e)
    ensures OrderlyTrace(s, [d, e]) <==> Orderly(s, d) && Orderly(Step(s, d), e)
  {
    assert [d, e][..1] == [d] && [d][..0] == [];
    assert Trace(s, []) == s && OrderlyTrace(s, []);
    assert Trace(s, [d]) == Step(s, d) && (OrderlyTrace(s, [d]) <==> Orderly(s, d));
    hide Step, Orderly;
  }

  /** From a state that is not exclusive an orderly continuation leads to two live runs of one group. */
  lemma NotExclusiveGoesWrong(s: State) returns (events: seq<Event>)
    requires Sound(s) && !Exclusive(s)
    ensures OrderlyTrace(s, events) && !AtMostOneLive(Trace(s, events))
  {
    if i, j :| i in s.runs && s.runs[i].phase == Checked && Live(s, j) && s.runs[j].group == s.runs[i].group {
      events := LiveBesideChecked(s, i, j);
    } else if i, j :| i in s.runs && s.runs[i].phase == Checked && j in s.runs && s.runs[j].phase == Checked
                      && s.runs[j].group == s.runs[i].group && i != j {
      events := TwoChecked(s, i, j);
    } else {
      var i :| Live(s, i) && !(s.runs[i].group in s.running && s.running[s.runs[i].group] == i);
      var g := s.runs[i].group;
      var id := FreshId(s.runs.Keys);
      hide Step, OrderlyTrace, Trace, Orderly;
      events := [Check(id, g), Register(id)];
      TwoSteps(s, Check(id, g), Register(id));
      EntryMissing(s, i, id);
    }
  }

  lemma LiveBesideChecked(s: State, i: nat, j: nat) returns (events: seq<Event>)
    requires Sound(s) && i in s.runs && s.runs[i].phase == Checked && Live(s, j) && s.runs[j].group == s.runs[i].group
    ensures OrderlyTrace(s, events) && !AtMostOneLive(Trace(s, events))
  {
    events := [Register(i)];
    assert events[..0] == [] && OrderlyTrace(s, []) && Trace(s, []) == s;
    var t := Step(s, Register(i));
    assert Trace(s, events) == t && Live(t, i) && Live(t, j) && t.runs[i].group == t.runs[j].group;
  }

  lemma TwoChecked(s: State, i: nat, j: nat) returns (events: seq<Event>)
    requires Sound(s) && i in s.runs && s.runs[i].phase == Checked && j in s.runs && s.runs[j].phase == Checked
    requires s.runs[j].group == s.runs[i].group && i != j
    ensures OrderlyTrace(s, events) && !AtMostOneLive(Trace(s, events))
  {
    hide OrderlyTrace, Trace;
    events := [Register(i), Register(j)];
    TwoSteps(s, Register(i), Register(j));
    OverlappingWindowsBreakIt(s, i, j);
  }

  /** A live run that the registry does not lead to is not cancelled by the next request. */
  lemma EntryMissing(s: State, i: nat, id: nat)
    requires Live(s, i) && !(s.runs[i].group in s.running && s.running[s.runs[i].group] == i) && id !in s.runs
    requires forall j | j in s.runs && s.runs[j].group == s.runs[i].group :: s.runs[j].phase != Checked
    ensures var g := s.runs[i].group;
            var s1 := Step(s, Check(id, g));
            Orderly(s, Check(id, g)) && Orderly(s1, Register(id))
            && Live(Step(s1, Register(id)), i) && Live(Step(s1, Register(id)), id)
            && Step(s1, Register(id)).runs[i].group == Step(s1, Register(id)).runs[id].group
  {
    var g := s.runs[i].group;
    var s1 := Step(s, Check(id, g));
    assert Live(s1, i) && Enabled(s1, Register(id)) && s1.runs[id] == Entrant(g);
  }

  /** No orderly continuation leads to two live runs of a topic and group. */
  ghost predicate SafeFrom(s: State) {
    forall events | OrderlyTrace(s, events) :: AtMostOneLive(Trace(s, events))
  }

  /**
   * A reachable state is exclusive exactly if it is safe: the two conditions on the steps are the
   * weakest that do not depend on what comes later.
   */
  lemma ExclusiveIff(s: State)
    requires Sound(s)
    ensures Exclusive(s) <==> SafeFrom(s)
  {
    if Exclusive(s) {
      forall events | OrderlyTrace(s, events) ensures AtMostOneLive(Trace(s, events)) {
        OrderlyTraceIff(s, events);
        assert events[..|events|] == events && Exclusive(Trace(s, events[..|events|]));
      }
    } else {
      var events := NotExclusiveGoesWrong(s);
    }
  }

  /** Over whole runs: the steps are in order exactly if every state on the way is safe. */
  lemma OrderlyIff(events: seq<Event>)
    ensures OrderlyTrace(EMPTY, events) <==> forall n | 0 <= n <= |events| :: SafeFrom(Trace(EMPTY, events[..n]))
  {
    OrderlyTraceIff(EMPTY, events);
    forall n | 0 <= n <= |events|
        ensures Exclusive(Trace(EMPTY, events[..n])) <==> SafeFrom(Trace(EMPTY, events[..n])) {
      TraceIsSound(EMPTY, events[..n]);
      ExclusiveIff(Trace(EMPTY, events[..n]));
    }
    hide *;
  }

  /** A request that checks cancels its predecessor and closes its consumer, and touches no other run. */
  lemma CheckStopsPredecessor(s: State, id: nat, group: string)
    requires id !in s.runs
    ensures var t := Step(s, Check(id, group));
            && t.running == s.running && t.runs.Keys == s.runs.Keys + {id}
            && t.runs[id] == RunState(group, Checked, false, false, false)
            && forall i | i in s.runs ::
                 if group in s.running && s.running[group] == i then
                   && t.runs[i].contextCancelled && (s.runs[i].isCancelled || t.runs[i].consumerClosed)
                   && t.runs[i].group == s.runs[i].group && t.runs[i].phase == s.runs[i].phase
                   && t.runs[i].isCancelled == s.runs[i].isCancelled
                 else t.runs[i] == s.runs[i]
  {
  }

  /** The other steps change the run that makes them and, to register and to delete, the entry of its group. */
  lemma StepChanges(s: State, e: Event, i: nat, g: string)
    requires Enabled(s, e) && !e.Check?
    ensures var t := Step(s, e);
            && t.runs.Keys == s.runs.Keys && t.runs[e.id].group == s.runs[e.id].group
            && (i in s.runs && i != e.id ==> t.runs[i] == s.runs[i])
            && (g != s.runs[e.id].group ==>
                (g in t.running <==> g in s.running) && (g in t.running ==> t.running[g] == s.running[g]))
    ensures var t, r := Step(s, e), s.runs[e.id];
            match e
            case Register(id) => t.runs[id] == r.(phase := Registered) && t.running == s.running[r.group := id]
            case Delete(id) => t.runs[id] == r.(phase := Left) && r.group !in t.running
            case Abort(id) => t.runs[id] == r.(phase := Left, contextCancelled := true) && t.running == s.running
            case Cancel(id) => t.runs[id] == r.(contextCancelled := true) && t.running == s.running
            case Mark(id) =>
              t.running == s.running
              && t.runs[id] == r.(phase := Marked, contextCancelled := true, isCancelled := true,
                                  consumerClosed := r.consumerClosed || !r.isCancelled)
            case _ => true
  {
  }
}
