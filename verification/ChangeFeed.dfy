/**
 * One change request: rewind the group to the token, poll until the limit, depletion, an error
 * or cancellation, hand every record to the callback, and return a new token.
 */
module ChangeFeed {
  import opened Decimal
  import opened Options
  import opened Topic
  import opened SinceToken

  datatype Delivery = Delivery(partition: Int32, record: Record)

  /** What one round of the poll loop saw. */
  datatype Round = StopRound | MessageRound | EmptyRound | ErrorRound | OtherRound

  /** The variables of the poll loop; `trace` lists the rounds with the state of the context after each. */
  datatype Run = Run(cursor: Cursor, emitted: seq<Delivery>, offsets: Offsets, count: nat, nilCount: nat,
                     isBeginning: bool, cancelled: bool, running: bool, trace: seq<(Round, bool)>)
  {
    function Seen(round: Round): Run {
      this.(trace := trace + [(round, cancelled)])
    }
  }

  const MAX_EMPTY_POLLS := 10

  function Fresh(cursor: Cursor): Run {
    Run(cursor, [], map[], 0, 0, true, false, true, [])
  }

  function Receive(run: Run, p: Int32, record: Record, limit: Int64): Run {
    var count := run.count + 1;
    run.(emitted := run.emitted + [Delivery(p, record)], offsets := run.offsets[p := record.offset],
         count := count, nilCount := 0, isBeginning := false,
         cancelled := run.cancelled || !record.decodes,
         running := !(limit > -1 && count >= limit)).Seen(MessageRound)
  }

  function Idle(run: Run): Run {
    var nilCount := run.nilCount + 1;
    run.(nilCount := nilCount,
         cancelled := run.cancelled || !run.isBeginning || nilCount == MAX_EMPTY_POLLS).Seen(EmptyRound)
  }

  /** One round of the poll loop. */
  function Step(run: Run, tick: Tick, limit: Int64): Run {
    if run.cancelled || tick.stop then
      run.(running := false, cursor := run.cursor.(logs := Observe(run.cursor.logs, tick))).Seen(StopRound)
    else
      var (event, cursor) := PollOf(run.cursor, tick);
      var polled := run.(cursor := cursor);
      match event
      case Message(p, record) => Receive(polled, p, record, limit)
      case Failure(allDown) => polled.(cancelled := allDown).Seen(ErrorRound)
      case Nothing => Idle(polled)
      case Other => polled.Seen(OtherRound)
  }

  /** The counter of empty polls has not run past the round in which it cancels the context. */
  predicate Sane(run: Run) {
    run.isBeginning ==> run.nilCount < MAX_EMPTY_POLLS || (run.nilCount == MAX_EMPTY_POLLS && run.cancelled)
  }

  function RoundsLeft(run: Run): nat
    requires Sane(run)
  {
    if !run.running then 0 else if run.cancelled then 1
    else if run.isBeginning then MAX_EMPTY_POLLS + 1 - run.nilCount else 2
  }

  /** The environment once its script is over: nothing happens any more. */
  function QuietTick(logs: Logs): Tick {
    Tick(logs, false, Wait)
  }

  /** The whole loop, against an environment that follows `script` and then falls silent. */
  function Loop(run: Run, script: seq<Tick>, limit: Int64): (r: Run)
    requires Sane(run)
    ensures Sane(r) && !r.running
    decreases |script|, RoundsLeft(run)
  {
    if !run.running then run
    else if script == [] then Loop(Step(run, QuietTick(run.cursor.logs), limit), [], limit)
    else Loop(Step(run, script[0], limit), script[1..], limit)
  }

  /** One round, variable by variable. */
  lemma StepFields(run: Run, tick: Tick, limit: Int64)
    ensures var next := Step(run, tick, limit);
            if run.cancelled || tick.stop then
              && next.cursor == run.cursor.(logs := Observe(run.cursor.logs, tick)) && !next.running
              && next.cancelled == run.cancelled && next.isBeginning == run.isBeginning && next.nilCount == run.nilCount
              && next.count == run.count && next.offsets == run.offsets && next.emitted == run.emitted
            else
              && var (event, cursor) := PollOf(run.cursor, tick);
                 var receives, idles := event.Message?, event.Nothing?;
              && next.cursor == cursor
              && next.count == run.count + (if receives then 1 else 0)
              && next.nilCount == (if receives then 0 else if idles then run.nilCount + 1 else run.nilCount)
              && next.isBeginning == (run.isBeginning && !receives)
              && next.running == (if receives then !(limit > -1 && next.count >= limit) else run.running)
              && next.cancelled == (match event
                                    case Message(_, record) => !record.decodes
                                    case Failure(allDown) => allDown
                                    case Nothing => !run.isBeginning || next.nilCount == MAX_EMPTY_POLLS
                                    case Other => false)
              && next.offsets == (if receives then run.offsets[event.partition := event.record.offset] else run.offsets)
              && next.emitted == run.emitted + (if receives then [Delivery(event.partition, event.record)] else [])
  {
    hide PollOf, Observe;
  }

  lemma LoopUnfolds(run: Run, script: seq<Tick>, limit: Int64)
    requires Sane(run) && run.running
    ensures var tick := if script == [] then QuietTick(run.cursor.logs) else script[0];
            Sane(Step(run, tick, limit))
            && Loop(run, script, limit) == Loop(Step(run, tick, limit), if script == [] then [] else script[1..], limit)
            && (script == [] ==> RoundsLeft(Step(run, tick, limit)) < RoundsLeft(run))
  {
  }

  lemma LoopStops(run: Run, script: seq<Tick>, limit: Int64)
    requires Sane(run) && !run.running
    ensures Loop(run, script, limit) == run
  {
  }

  /** Signed 64-bit addition of one. */
  function Next(offset: Int64): (r: Int64)
    ensures (r as int - (offset as int + 1)) % 0x1_0000_0000_0000_0000 == 0
  {
    if offset == MAX_INT64 then MIN_INT64 else offset + 1
  }

  /** The offsets that a rewind to `offsets` commits. */
  function RewindTargets(offsets: Offsets, logs: Logs): Committed {
    if offsets != map[] then map p | p in offsets :: Next(offsets[p])
    else map p | p in logs :: 0
  }

  /** A step before the loop that fails; a failed commit may have reached part of the partitions. */
  datatype Fault = NoFault | BeforeRewind | InMetadata | InCommit(applied: set<Int32>) | InSubscribe

  function FailsRewind(fault: Fault, offsets: Offsets): bool {
    fault.InCommit? || (fault.InMetadata? && offsets == map[])
  }

  function Rewound(committed: Committed, offsets: Offsets, logs: Logs, fault: Fault): Committed {
    var targets := RewindTargets(offsets, logs);
    if fault.BeforeRewind? || (fault.InMetadata? && offsets == map[]) then committed
    else if fault.InCommit? then committed + (map p | p in targets && p in fault.applied :: targets[p])
    else committed + targets
  }

  /** The new token keeps the requested offset of every partition that delivered nothing. */
  ghost function Continuation(run: Run, requested: Offsets, since: string): Option<string> {
    if run.count > 0 then Some(Since(requested + run.offsets))
    else if since != "" then Some(since) else None
  }

  datatype World = World(logs: Logs, committed: Committed)

  datatype Response = Response(failed: bool, emitted: seq<Delivery>, continuation: Option<string>)

  predicate Fails(fault: Fault, offsets: Offsets) {
    fault.BeforeRewind? || fault.InSubscribe? || FailsRewind(fault, offsets)
  }

  /** A request as a function of the broker, the token and the environment. */
  ghost function Serve(world: World, since: string, limit: Int64, fault: Fault, script: seq<Tick>): (World, Response) {
    var offsets := DecodeSince(since);
    var committed := Rewound(world.committed, offsets, world.logs, fault);
    if Fails(fault, offsets) then (World(world.logs, committed), Response(true, [], None)) else
    var run := Loop(Fresh(Subscribed(world.logs, committed)), script, limit);
    (World(run.cursor.logs, committed), Response(false, run.emitted, Continuation(run, offsets, since)))
  }

  function Lookup(m: Offsets, p: Int32): Option<Int64> {
    if p in m then Some(m[p]) else None
  }

  /** What a fault leaves of the commit. */
  lemma FaultCommits(committed: Committed, offsets: Offsets, logs: Logs, applied: set<Int32>, p: Int32)
    ensures Rewound(committed, offsets, logs, BeforeRewind) == committed
    ensures Rewound(committed, offsets, logs, InMetadata)
            == if offsets == map[] then committed else Rewound(committed, offsets, logs, NoFault)
    ensures Rewound(committed, offsets, logs, InSubscribe) == Rewound(committed, offsets, logs, NoFault)
    ensures Lookup(Rewound(committed, offsets, logs, InCommit(applied)), p)
            == Lookup(if p in applied then Rewound(committed, offsets, logs, NoFault) else committed, p)
  {
    hide RewindTargets;
  }

  /** A request that fails hands out nothing, and commits what the fault let through. */
  lemma FaultsFail(world: World, since: string, limit: Int64, script: seq<Tick>, applied: set<Int32>, p: Int32)
    ensures Serve(world, since, limit, BeforeRewind, script) == (world, Response(true, [], None))
    ensures Serve(world, since, limit, InMetadata, script)
            == if DecodeSince(since) == map[] then (world, Response(true, [], None))
               else Serve(world, since, limit, NoFault, script)
    ensures Serve(world, since, limit, InSubscribe, script)
            == (World(world.logs, Serve(world, since, limit, NoFault, script).0.committed), Response(true, [], None))
    ensures var (after, response) := Serve(world, since, limit, InCommit(applied), script);
            var full := Serve(world, since, limit, NoFault, script).0.committed;
            && response == Response(true, [], None) && after.logs == world.logs
            && Lookup(after.committed, p) == Lookup(if p in applied then full else world.committed, p)
  {
    hide DecodeSince, Loop, Subscribed, Rewound, Continuation, Lookup;
    FaultCommits(world.committed, DecodeSince(since), world.logs, applied, p);
  }

  /** The callback receives the records and then at most one continuation. */
  datatype Output = Entity(delivery: Delivery) | ContinuationToken(token: string)

  class Consumer {
    const broker: Broker

    constructor (broker: Broker)
      ensures this.broker == broker
    {
      this.broker := broker;
    }

    method ResetOffsets(offsets: Offsets, fault: Fault) returns (ok: bool)
      requires !fault.BeforeRewind?
      modifies broker`committed
      ensures ok == !FailsRewind(fault, offsets)
      ensures broker.committed == Rewound(old(broker.committed), offsets, broker.logs, fault)
    {
      var partitions: Committed := map[];
      var rest := offsets;
      while rest != map[]
        invariant forall p | p in rest :: p in offsets && rest[p] == offsets[p]
        invariant forall p :: p in partitions <==> p in offsets && p !in rest
        invariant forall p | p in partitions :: partitions[p] == Next(offsets[p])
        decreases |rest|
      {
        var p :| p in rest;
        partitions := partitions[p := Next(rest[p])];
        rest := rest - {p};
      }
      var failure := if fault.InCommit? then Some(fault.applied) else None;
      if partitions != map[] {
        assert offsets != map[] && partitions == RewindTargets(offsets, broker.logs);
        ok := broker.CommitOffsets(partitions, failure);
      } else {
        assert offsets == map[] by {
          assert forall p | p in offsets :: p in partitions;
        }
        if fault.InMetadata? {
          return false;
        }
        partitions := map p | p in broker.logs :: 0;
        ok := broker.CommitOffsets(partitions, failure);
      }
    }

    /** Requested partitions that delivered nothing keep the offset they came with. */
    method CarryOver(partitionOffsets: Offsets, offsets: Offsets) returns (merged: Offsets)
      ensures merged == offsets + partitionOffsets
    {
      merged := partitionOffsets;
      var rest := offsets.Keys;
      while rest != {}
        invariant rest <= offsets.Keys
        invariant merged == (offsets - rest) + partitionOffsets
        decreases |rest|
      {
        var p :| p in rest;
        if p !in merged {
          merged := merged[p := offsets[p]];
        }
        rest := rest - {p};
      }
    }

    /** The poll loop, variable by variable as the handler keeps them. */
    method PollLoop(limit: Int64, script: seq<Tick>, ghost final: Run)
      returns (output: seq<Output>, sinceCount: nat, partitionOffsets: Offsets)
      requires final == Loop(Fresh(Cursor(broker.logs, broker.positions)), script, limit)
      modifies broker`logs, broker`positions
      ensures Cursor(broker.logs, broker.positions) == final.cursor
      ensures output == Entities(final.emitted) && sinceCount == final.count && partitionOffsets == final.offsets
    {
      var running, cancelled, isBeginning := true, false, true;
      var count, nilCount := 0, 0;
      var pending := script;
      output, sinceCount, partitionOffsets := [], 0, map[];
      ghost var run := Fresh(Cursor(broker.logs, broker.positions));
      assert Sane(run) && Entities(run.emitted) == output;
      hide Loop, RoundsLeft, PollOf, Observe, Sane, Entities, Fresh, Step;
      while running
        invariant Sane(run) && Loop(run, pending, limit) == final
        invariant run.running == running && run.cancelled == cancelled && run.isBeginning == isBeginning
        invariant run.count == count == sinceCount && run.nilCount == nilCount && run.offsets == partitionOffsets
        invariant run.cursor == Cursor(broker.logs, broker.positions)
        invariant output == Entities(run.emitted)
        decreases |pending|, RoundsLeft(run)
      {
        LoopUnfolds(run, pending, limit);
        var tick := QuietTick(broker.logs);
        if pending != [] {
          tick, pending := pending[0], pending[1..];
        }
        StepFields(run, tick, limit);
        if cancelled || tick.stop {
          broker.logs := Observe(broker.logs, tick);
          running := false;
        } else {
          var event := broker.Poll(tick);
          match event {
            case Message(p, record) =>
              count := count + 1;
              nilCount := 0;
              isBeginning := false;
              sinceCount := sinceCount + 1;
              partitionOffsets := partitionOffsets[p := record.offset];
              if !record.decodes {
                cancelled := true;
              }
              EntitiesAppend(run.emitted, Delivery(p, record));
              output := output + [Entity(Delivery(p, record))];
              if limit > -1 && count >= limit {
                running := false;
              }
            case Failure(allDown) =>
              if allDown {
                cancelled := true;
              }
            case Nothing =>
              nilCount := nilCount + 1;
              if isBeginning {
                if nilCount == MAX_EMPTY_POLLS {
                  cancelled := true;
                }
              } else {
                cancelled := true;
              }
            case Other =>
          }
        }
        run := Step(run, tick, limit);
      }
      LoopStops(run, pending, limit);
    }

    method ChangeSet(since: string, limit: Int64, fault: Fault, script: seq<Tick>)
      returns (failed: bool, output: seq<Output>)
      modifies broker
      ensures var (world, response) := Serve(old(World(broker.logs, broker.committed)), since, limit, fault, script);
              && World(broker.logs, broker.committed) == world
              && failed == response.failed
              && output == Outputs(response)
    {
      failed, output := true, [];
      if fault.BeforeRewind? {
        return;
      }
      var offsets := DecodeSince(since);
      var ok := ResetOffsets(offsets, fault);
      if !ok || fault.InSubscribe? {
        return;
      }
      broker.Subscribe();
      failed := false;
      ghost var final := Loop(Fresh(Cursor(broker.logs, broker.positions)), script, limit);
      var sinceCount, partitionOffsets;
      output, sinceCount, partitionOffsets := PollLoop(limit, script, final);
      if sinceCount > 0 {
        var merged := CarryOver(partitionOffsets, offsets);
        var token := MarshalSince(merged);
        output := output + [ContinuationToken(token)];
      } else if since != "" {
        output := output + [ContinuationToken(since)];
      }
    }
  }

  function Entities(ds: seq<Delivery>): (os: seq<Output>) {
    seq(|ds|, i requires 0 <= i < |ds| => Entity(ds[i]))
  }

  lemma EntitiesAppend(ds: seq<Delivery>, d: Delivery)
    ensures Entities(ds + [d]) == Entities(ds) + [Entity(d)]
  {
  }

  function Outputs(response: Response): (os: seq<Output>) {
    Entities(response.emitted) +
    match response.continuation case None => [] case Some(token) => [ContinuationToken(token)]
  }
}
