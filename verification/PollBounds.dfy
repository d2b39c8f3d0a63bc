/** How long a poll loop can last, in rounds of each kind. */
module PollBounds {
  import opened Decimal
  import opened Options
  import opened Topic
  import opened SinceToken
  import opened ChangeFeed
  import Paging

  function Count(trace: seq<(Round, bool)>, round: Round): (n: nat) {
    if trace == [] then 0 else
    Count(trace[..|trace| - 1], round) + if trace[|trace| - 1].0 == round then 1 else 0
  }

  /** Empty polls that come after the first message. */
  function LateEmpties(trace: seq<(Round, bool)>): (n: nat) {
    if trace == [] then 0 else
    var init := trace[..|trace| - 1];
    LateEmpties(init) + if trace[|trace| - 1].0 == EmptyRound && Count(init, MessageRound) > 0 then 1 else 0
  }

  /** Rounds that end with the context cancelled. */
  function CancelledRounds(trace: seq<(Round, bool)>): (n: nat) {
    if trace == [] then 0 else
    CancelledRounds(trace[..|trace| - 1]) + if trace[|trace| - 1].1 then 1 else 0
  }

  lemma CountersAppend(trace: seq<(Round, bool)>, x: (Round, bool))
    ensures forall round :: Count(trace + [x], round) == Count(trace, round) + if x.0 == round then 1 else 0
    ensures LateEmpties(trace + [x]) == LateEmpties(trace) + if x.0 == EmptyRound
            && Count(trace, MessageRound) > 0 then 1 else 0
    ensures CancelledRounds(trace + [x]) == CancelledRounds(trace) + if x.1 then 1 else 0
  {
    assert (trace + [x])[..|trace|] == trace;
  }

  function Cap(limit: Int64): int {
    if limit > 1 then limit else 1
  }

  ghost predicate Books(run: Run, limit: Int64) {
    && Count(run.trace, MessageRound) == run.count
    && (run.isBeginning <==> run.count == 0)
    && (if run.isBeginning then Count(run.trace, EmptyRound) == run.nilCount && LateEmpties(run.trace) == 0
        else Count(run.trace, EmptyRound) < MAX_EMPTY_POLLS + LateEmpties(run.trace)
             && LateEmpties(run.trace) <= if run.cancelled then 1 else 0)
    && (limit > -1 ==> run.count <= Cap(limit) && (run.running ==> run.count < Cap(limit)))
    && (run.running ==> CancelledRounds(run.trace) == if run.cancelled then 1 else 0)
    && CancelledRounds(run.trace) <= 2
    && Count(run.trace, StopRound) <= if run.running then 0 else 1
  }

  ghost predicate Follows(run: Run, next: Run, limit: Int64)
    requires Sane(run)
  {
    Books(next, limit) && Sane(next) && |next.trace| == |run.trace| + 1 && RoundsLeft(next) <= RoundsLeft(run)
  }

  lemma ReceiveKeepsBooks(run: Run, p: Int32, record: Record, limit: Int64)
    requires Sane(run) && Books(run, limit) && run.running && !run.cancelled
    ensures Follows(run, Receive(run, p, record, limit), limit)
  {
    CountersAppend(run.trace, (MessageRound, !record.decodes));
    hide Count, LateEmpties, CancelledRounds;
  }

  lemma IdleKeepsBooks(run: Run, limit: Int64)
    requires Sane(run) && Books(run, limit) && run.running && !run.cancelled
    ensures Follows(run, Idle(run), limit)
  {
    CountersAppend(run.trace, (EmptyRound, !run.isBeginning || run.nilCount + 1 == MAX_EMPTY_POLLS));
    hide Count, LateEmpties, CancelledRounds;
  }

  /** Rounds without a message that are not empty either. */
  lemma OtherRoundKeepsBooks(run: Run, round: Round, cancelled: bool, running: bool, limit: Int64)
    requires Sane(run) && Books(run, limit) && run.running
    requires round != MessageRound && round != EmptyRound && (round == StopRound ==> !running)
    requires !running || !run.cancelled
    requires run.cancelled ==> cancelled
    ensures Follows(run, run.(cancelled := cancelled, running := running).Seen(round), limit)
  {
    CountersAppend(run.trace, (round, cancelled));
    hide Count, LateEmpties, CancelledRounds;
  }

  lemma StepKeepsBooks(run: Run, tick: Tick, limit: Int64)
    requires Sane(run) && Books(run, limit) && run.running
    ensures Follows(run, Step(run, tick, limit), limit)
  {
    var seen := run.(cursor := run.cursor.(logs := Observe(run.cursor.logs, tick)));
    var (event, cursor) := PollOf(run.cursor, tick);
    var polled := run.(cursor := cursor);
    assert Books(seen, limit) && Books(polled, limit);
    hide PollOf, Observe, Books, Receive, Idle;
    if run.cancelled || tick.stop {
      OtherRoundKeepsBooks(seen, StopRound, run.cancelled, false, limit);
    } else {
      match event
      case Message(p, record) => ReceiveKeepsBooks(polled, p, record, limit);
      case Failure(allDown) => OtherRoundKeepsBooks(polled, ErrorRound, allDown, true, limit);
      case Nothing => IdleKeepsBooks(polled, limit);
      case Other => OtherRoundKeepsBooks(polled, OtherRound, false, true, limit);
    }
  }

  lemma {:induction false} LoopKeepsBooks(run: Run, script: seq<Tick>, limit: Int64)
    requires Sane(run) && Books(run, limit)
    ensures Books(Loop(run, script, limit), limit)
    ensures |Loop(run, script, limit).trace| <= |run.trace| + |script| + RoundsLeft(run)
    decreases |script|, RoundsLeft(run)
  {
    if run.running {
      var tick := if script == [] then QuietTick(run.cursor.logs) else script[0];
      StepKeepsBooks(run, tick, limit);
      hide Books;
      LoopKeepsBooks(Step(run, tick, limit), if script == [] then [] else script[1..], limit);
    }
  }

  /**
   * Bounds on every run: ten empty polls, of which one after the first message; the limit on
   * messages, where a limit below one still lets one through; one round beyond the round that
   * cancels the context; and eleven rounds beyond what the environment does.
   */
  lemma RunIsBounded(cursor: Cursor, script: seq<Tick>, limit: Int64)
    ensures var trace := Loop(Fresh(cursor), script, limit).trace;
            && Count(trace, EmptyRound) <= 10
            && LateEmpties(trace) <= 1
            && (limit > -1 ==> Count(trace, MessageRound) <= if limit > 1 then limit else 1)
            && CancelledRounds(trace) <= 2
            && Count(trace, StopRound) <= 1
            && |trace| <= |script| + 11
  {
    LoopKeepsBooks(Fresh(cursor), script, limit);
  }

  /** Exactly the limits from one on are kept by every run: under limit zero one record gets through. */
  lemma LimitIsKeptIff(cursor: Cursor, limit: Int64, p: Int32)
    requires Paging.ValidCursor(cursor) && LogOf(cursor.logs, p).end < MAX_INT64
    requires limit > -1
    ensures (forall script: seq<Tick> :: Loop(Fresh(cursor), script, limit).count <= limit) <==> limit >= 1
  {
    if limit >= 1 {
      forall script: seq<Tick> ensures Loop(Fresh(cursor), script, limit).count <= limit {
        LoopKeepsBooks(Fresh(cursor), script, limit);
      }
    } else {
      var logs := Paging.OneMore(cursor.logs, p);
      Paging.OneMoreExtends(cursor.logs, p);
      ExtendsAt(cursor.logs, logs, p);
      BelowAppended(LogOf(cursor.logs, p), LogOf(logs, p), cursor.Position(p));
      Paging.LoopOne(cursor, logs, p, limit);
    }
  }

  /** A record that does not decode is the last one so far, and the context is cancelled. */
  ghost predicate UndecodableIsLast(run: Run) {
    forall i | 0 <= i < |run.emitted| && !run.emitted[i].record.decodes :: i == |run.emitted| - 1 && run.cancelled
  }

  lemma {:induction false} LoopKeepsUndecodableLast(run: Run, script: seq<Tick>, limit: Int64)
    requires Sane(run) && UndecodableIsLast(run)
    ensures UndecodableIsLast(Loop(run, script, limit))
    decreases |script|, RoundsLeft(run)
  {
    if run.running {
      var tick := if script == [] then QuietTick(run.cursor.logs) else script[0];
      assert UndecodableIsLast(Step(run, tick, limit)) by { hide PollOf, Observe; }
      hide UndecodableIsLast, Step;
      LoopKeepsUndecodableLast(Step(run, tick, limit), if script == [] then [] else script[1..], limit);
    }
  }

  /** In every run, also one that is interrupted, only the last record of the page can be undecodable. */
  lemma UndecodableComesLast(cursor: Cursor, script: seq<Tick>, limit: Int64)
    ensures var emitted := Loop(Fresh(cursor), script, limit).emitted;
            forall i | 0 <= i < |emitted| - 1 :: emitted[i].record.decodes
  {
    LoopKeepsUndecodableLast(Fresh(cursor), script, limit);
  }

  /** Some reason to end the request has shown itself. */
  ghost predicate HasCause(run: Run) {
    || (exists d | d in run.emitted :: !d.record.decodes)
    || (exists x | x in run.trace :: x == (ErrorRound, true))
    || LateEmpties(run.trace) == 1
    || (run.count == 0 && Count(run.trace, EmptyRound) == MAX_EMPTY_POLLS)
  }

  ghost predicate Motivated(run: Run, limit: Int64) {
    && (run.cancelled ==> HasCause(run))
    && (!run.running ==> run.cancelled || (limit > -1 && run.count == Cap(limit)))
  }

  lemma SeenKeepsCause(run: Run, round: Round)
    requires HasCause(run) && round != EmptyRound
    ensures HasCause(run.Seen(round))
  {
    CountersAppend(run.trace, (round, run.cancelled));
    assert forall x | x in run.trace :: x in run.Seen(round).trace;
  }

  lemma ReceiveIsMotivated(run: Run, p: Int32, record: Record, limit: Int64)
    requires Sane(run) && Books(run, limit) && Motivated(run, limit) && run.running && !run.cancelled
    ensures Motivated(Receive(run, p, record, limit), limit)
  {
    ReceiveKeepsBooks(run, p, record, limit);
    var next := Receive(run, p, record, limit);
    assert Delivery(p, record) in next.emitted;
    hide Count, LateEmpties, CancelledRounds;
  }

  lemma IdleIsMotivated(run: Run, limit: Int64)
    requires Sane(run) && Books(run, limit) && Motivated(run, limit) && run.running && !run.cancelled
    ensures Motivated(Idle(run), limit)
  {
    IdleKeepsBooks(run, limit);
    CountersAppend(run.trace, Idle(run).trace[|run.trace|]);
    hide Count, LateEmpties, CancelledRounds;
    assert Idle(run).trace == run.trace + [Idle(run).trace[|run.trace|]];
  }

  lemma OtherRoundIsMotivated(run: Run, cancelled: bool, limit: Int64)
    requires Motivated(run, limit) && run.running && !run.cancelled
    ensures Motivated(run.(cancelled := cancelled).Seen(ErrorRound), limit)
    ensures Motivated(run.Seen(OtherRound), limit)
  {
    var next := run.(cancelled := cancelled).Seen(ErrorRound);
    assert next.trace[|run.trace|] == (ErrorRound, cancelled) && next.trace[|run.trace|] in next.trace;
  }

  lemma StepIsMotivated(run: Run, tick: Tick, limit: Int64)
    requires Sane(run) && Books(run, limit) && Motivated(run, limit) && run.running && !tick.stop
    ensures Motivated(Step(run, tick, limit), limit)
  {
    var seen := run.(running := false, cursor := run.cursor.(logs := Observe(run.cursor.logs, tick)));
    var (event, cursor) := PollOf(run.cursor, tick);
    var polled := run.(cursor := cursor);
    assert Books(polled, limit) && Motivated(polled, limit);
    if run.cancelled {
      assert HasCause(seen);
      SeenKeepsCause(seen, StopRound);
    } else {
      hide PollOf, Observe, Books, Motivated, Receive, Idle;
      match event
      case Message(p, record) => ReceiveIsMotivated(polled, p, record, limit);
      case Failure(allDown) => OtherRoundIsMotivated(polled, allDown, limit);
      case Nothing => IdleIsMotivated(polled, limit);
      case Other => OtherRoundIsMotivated(polled, false, limit);
    }
  }

  lemma {:induction false} LoopIsMotivated(run: Run, script: seq<Tick>, limit: Int64)
    requires Sane(run) && Books(run, limit) && Motivated(run, limit) && forall t | t in script :: !t.stop
    ensures Motivated(Loop(run, script, limit), limit)
    decreases |script|, RoundsLeft(run)
  {
    if run.running {
      var tick := if script == [] then QuietTick(run.cursor.logs) else script[0];
      StepKeepsBooks(run, tick, limit);
      StepIsMotivated(run, tick, limit);
      hide Books, Motivated;
      LoopIsMotivated(Step(run, tick, limit), if script == [] then [] else script[1..], limit);
    }
  }

  /**
   * A run that nobody interrupts goes on until the limit is reached, the log is depleted, ten polls
   * in a row found nothing to begin with, all brokers are down, or a record cannot be decoded; such
   * a record is still handed out, and it is the last one.
   */
  lemma RunEndsForAReason(cursor: Cursor, script: seq<Tick>, limit: Int64)
    requires forall t | t in script :: !t.stop
    ensures var run := Loop(Fresh(cursor), script, limit);
            HasCause(run) || (limit > -1 && run.count == if limit > 1 then limit else 1)
  {
    LoopIsMotivated(Fresh(cursor), script, limit);
  }

  /** Where nothing ever arrives the run makes exactly ten polls, and one more round to stop. */
  lemma SilentRunGivesUp(cursor: Cursor, limit: Int64)
    ensures var run := Loop(Fresh(cursor), [], limit);
            Count(run.trace, EmptyRound) == 10 && Count(run.trace, StopRound) == 1 && |run.trace| == 11
              && run.emitted == []
  {
    SilentRound(Fresh(cursor), limit, 0);
  }

  lemma {:induction false} SilentRound(run: Run, limit: Int64, n: nat)
    requires Sane(run) && run.running && run.isBeginning && run.nilCount == n <= 10 && (run.cancelled <==> n == 10)
    requires |run.trace| == n && Count(run.trace, EmptyRound) == n && Count(run.trace, StopRound) == 0
             && run.emitted == []
    ensures var end := Loop(run, [], limit);
            Count(end.trace, EmptyRound) == 10 && Count(end.trace, StopRound) == 1 && |end.trace| == 11
              && end.emitted == []
    decreases 10 - n
  {
    var next := Step(run, QuietTick(run.cursor.logs), limit);
    CountersAppend(run.trace, next.trace[n]);
    assert next.trace == run.trace + [next.trace[n]];
    if n < 10 {
      SilentRound(next, limit, n + 1);
    }
  }
}
