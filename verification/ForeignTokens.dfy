/**
 * Tokens that are not the latest of a chain: an older one, or one from elsewhere. The rewind
 * leaves partitions outside the token where they are, and the broker falls back to the earliest
 * record when the token points beyond the log.
 */
module ForeignTokens {
  import opened Decimal
  import opened Options
  import opened Topic
  import opened SinceToken
  import opened ChangeFeed
  import opened Paging
  import opened Chains

  /** Where a request with this token starts to read. */
  ghost function StartCursor(world: World, token: Offsets): Cursor {
    Subscribed(world.logs, Rewound(world.committed, token, world.logs, NoFault))
  }

  ghost function StartOf(world: World, token: Offsets, p: Int32): int {
    StartCursor(world, token).Position(p)
  }

  /** The request hands out, in every partition, the records between its token and the one it returns. */
  ghost predicate DeliversBetween(world: World, since: string, limit: Int64, script: seq<Tick>) {
    var (after, response) := Serve(world, since, limit, NoFault, script);
    forall p: Int32 :: Advances(after.logs, DecodeSince(since), DecodeSince(NextToken(since, response)),
                                response.emitted, p)
  }

  /** The token lies inside the log, and the group has passed no record of a partition outside it. */
  ghost predicate Resumable(world: World, token: Offsets) {
    && (forall p | p in token :: token[p] < LogOf(world.logs, p).end)
    && (token != map[] ==> forall p | p in world.committed && p !in token ::
          Below(LogOf(world.logs, p).records, Start(world.logs, world.committed, p)) == 0)
  }

  lemma StartPosition(world: World, token: Offsets, p: Int32)
    requires ValidLogs(world.logs)
    ensures 0 <= StartOf(world, token, p) <= LogOf(world.logs, p).end
    ensures p in token && token[p] < LogOf(world.logs, p).end ==>
            StartOf(world, token, p) == if token[p] < 0 then 0 else token[p] + 1
    ensures p in token && token[p] >= LogOf(world.logs, p).end ==> StartOf(world, token, p) == 0
    ensures p !in token && token != map[] ==> StartOf(world, token, p) == Start(world.logs, world.committed, p)
    ensures token == map[] ==> StartOf(world, token, p) == 0
  {
    var committed := Rewound(world.committed, token, world.logs, NoFault);
    assert committed == world.committed + RewindTargets(token, world.logs);
    assert ValidLog(LogOf(world.logs, p));
  }

  lemma StartIsValid(world: World, token: Offsets)
    requires ValidLogs(world.logs)
    ensures ValidCursor(StartCursor(world, token)) && StartCursor(world, token).logs == world.logs
  {
    forall p: Int32 ensures 0 <= StartOf(world, token, p) <= LogOf(world.logs, p).end {
      StartPosition(world, token, p);
    }
  }

  lemma NothingBelow(log: Log, x: int)
    requires ValidLog(log) && x <= 0
    ensures Below(log.records, x) == 0
  {
  }

  lemma FreshIsTrackedFrom(start: Cursor)
    requires ValidCursor(start)
    ensures Tracked(start, Fresh(start).cursor, Fresh(start).emitted, Fresh(start).offsets)
  {
  }

  /** What a run from a valid cursor keeps, for one partition. */
  lemma RunTracks(start: Cursor, limit: Int64, script: seq<Tick>, p: Int32)
    requires ValidCursor(start)
    ensures var run := Loop(Fresh(start), script, limit);
            && TracksAt(start, run.cursor, run.emitted, run.offsets, p) && run.count == |run.emitted|
            && Extends(start.logs, run.cursor.logs)
            && ValidLog(LogOf(start.logs, p)) && ValidLog(LogOf(run.cursor.logs, p))
              && Appended(LogOf(start.logs, p), LogOf(run.cursor.logs, p))
  {
    var run := Loop(Fresh(start), script, limit);
    FreshIsTrackedFrom(start);
    LoopCounts(Fresh(start), script, limit);
    LoopKeeps(start, Fresh(start), script, limit);
    hide Loop;
    ExtendsAt(start.logs, run.cursor.logs, p);
  }

  lemma StartBelow(world: World, token: Offsets, logs: Logs, p: Int32)
    requires ValidLogs(world.logs) && Resumable(world, token) && Extends(world.logs, logs)
    ensures Below(LogOf(logs, p).records, StartOf(world, token, p)) == Frontier(logs, token, p)
    ensures p in token ==> token[p] < StartOf(world, token, p)
  {
    StartPosition(world, token, p);
    ExtendsAt(world.logs, logs, p);
    hide StartOf, Extends, ValidLogs;
    var before, after := LogOf(world.logs, p), LogOf(logs, p);
    BelowAppended(before, after, StartOf(world, token, p));
    NothingBelow(before, 0);
    NothingBelow(after, 0);
    if p in token && token[p] < 0 {
      NothingBelow(after, token[p] + 1);
    }
  }

  lemma NothingNoOffsets(start: Cursor, limit: Int64, script: seq<Tick>)
    requires ValidCursor(start)
    ensures var run := Loop(Fresh(start), script, limit); run.count == 0 ==> run.offsets == map[]
  {
    hide Loop, ValidCursor;
    var run := Loop(Fresh(start), script, limit);
    forall p: Int32 ensures run.count == 0 ==> p !in run.offsets {
      RunTracks(start, limit, script, p);
    }
  }

  /** What the token of a response decodes to. */
  lemma ServeResult(world: World, since: string, limit: Int64, script: seq<Tick>)
    requires ValidLogs(world.logs)
    ensures var (after, response) := Serve(world, since, limit, NoFault, script);
            var run := Loop(Fresh(StartCursor(world, DecodeSince(since))), script, limit);
            && !response.failed && after.logs == run.cursor.logs && response.emitted == run.emitted
            && after.committed == Rewound(world.committed, DecodeSince(since), world.logs, NoFault)
            && DecodeSince(NextToken(since, response)) == DecodeSince(since) + run.offsets
  {
    hide Loop, Rewound, DecodeSince, NextToken, Continuation, Subscribed, ValidLogs, ValidCursor;
    var token := DecodeSince(since);
    var start := StartCursor(world, token);
    var run := Loop(Fresh(start), script, limit);
    StartIsValid(world, token);
    NothingNoOffsets(start, limit, script);
    NextTokenDecodes(since, run);
    assert run.count == 0 ==> token + run.offsets == token;
  }

  lemma ResumableDelivers(world: World, since: string, limit: Int64, script: seq<Tick>)
    requires ValidLogs(world.logs) && Resumable(world, DecodeSince(since))
    ensures DeliversBetween(world, since, limit, script)
  {
    var token := DecodeSince(since);
    var start := StartCursor(world, token);
    var run := Loop(Fresh(start), script, limit);
    ServeResult(world, since, limit, script);
    StartIsValid(world, token);
    hide Loop, Serve, DecodeSince, NextToken, StartCursor, Resumable;
    forall p: Int32 ensures Advances(run.cursor.logs, token, token + run.offsets, run.emitted, p) {
      RunTracks(start, limit, script, p);
      StartBelow(world, token, run.cursor.logs, p);
      PartitionAdvances(start, run.cursor, run.emitted, run.offsets, token, p);
    }
  }

  /** A request with limit one that gets the next record of partition `p` of the log as it is by then. */
  ghost function ServeNext(world: World, since: string, logs: Logs, p: Int32): (World, Response) {
    Serve(world, since, 1, NoFault, [Tick(logs, false, Deliver(p))])
  }

  lemma ServeOne(world: World, since: string, logs: Logs, p: Int32)
    requires ValidLogs(world.logs) && (logs == world.logs || Extends(world.logs, logs))
    requires Below(LogOf(logs, p).records, StartOf(world, DecodeSince(since), p)) < |LogOf(logs, p).records|
    ensures var token := DecodeSince(since);
            var record := LogOf(logs, p).records[Below(LogOf(logs, p).records, StartOf(world, token, p))];
            var (after, response) := ServeNext(world, since, logs, p);
            && after == World(logs, Rewound(world.committed, token, world.logs, NoFault)) && !response.failed
            && response.emitted == [Delivery(p, record)]
            && DecodeSince(NextToken(since, response)) == token[p := record.offset]
  {
    hide Loop, Serve, DecodeSince, Rewound, Below, NextToken, ValidLogs, ValidCursor, LogOf, Extends, Subscribed;
    var token := DecodeSince(since);
    var start := StartCursor(world, token);
    ServeResult(world, since, 1, [Tick(logs, false, Deliver(p))]);
    StartIsValid(world, token);
    assert StartOf(world, token, p) == start.Position(p);
    LoopOne(start, logs, p, 1);
    var run := Loop(Fresh(start), [Tick(logs, false, Deliver(p))], 1);
    assert token + run.offsets == token[p := run.offsets[p]];
  }

  /** The token of a partition lies beyond its log: the next record is below the token. */
  lemma OutsideGoesWrong(world: World, since: string, p: Int32)
    requires ValidLogs(world.logs) && LogOf(world.logs, p).end < MAX_INT64
    requires p in DecodeSince(since) && DecodeSince(since)[p] >= LogOf(world.logs, p).end
    ensures !DeliversBetween(world, since, 1, [Tick(OneMore(world.logs, p), false, Deliver(p))])
  {
    var token, logs := DecodeSince(since), OneMore(world.logs, p);
    OneMoreExtends(world.logs, p);
    StartPosition(world, token, p);
    var log := LogOf(logs, p);
    NothingBelow(log, 0);
    assert log.records[0].offset <= LogOf(world.logs, p).end;
    hide DecodeSince, Serve, NextToken, StartOf, Below, LogOf, Extends, ValidLogs, OneMore, Advances;
    ServeOne(world, since, logs, p);
    var response := ServeNext(world, since, logs, p).1;
    GoingBackIsNoAdvance(logs, token, DecodeSince(NextToken(since, response)), response.emitted, p);
  }

  lemma GoingBackIsNoAdvance(logs: Logs, token: Offsets, next: Offsets, ds: seq<Delivery>, p: Int32)
    requires |ds| == 1 && ds[0].partition == p && p in token && p in next && next[p] <= token[p]
    ensures !Advances(logs, token, next, ds, p)
  {
    ProjectOne(ds, p);
    hide Below, LogOf;
  }

  lemma ProjectOne(ds: seq<Delivery>, p: Int32)
    requires |ds| == 1 && ds[0].partition == p
    ensures Project(ds, p) == [ds[0].record]
  {
    assert ds == [] + ds;
    assert ds[..0] == [];
  }

  /** The group has passed a record of a partition outside the token: the next record leaves a gap. */
  lemma PassedGoesWrong(world: World, since: string, p: Int32)
    requires ValidLogs(world.logs) && LogOf(world.logs, p).end < MAX_INT64
    requires p !in DecodeSince(since) && DecodeSince(since) != map[]
    requires Below(LogOf(world.logs, p).records, Start(world.logs, world.committed, p)) > 0
    ensures !DeliversBetween(world, since, 1, [Tick(OneMore(world.logs, p), false, Deliver(p))])
  {
    var token, logs := DecodeSince(since), OneMore(world.logs, p);
    OneMoreExtends(world.logs, p);
    StartPosition(world, token, p);
    var log, x := LogOf(logs, p), StartOf(world, token, p);
    ExtendsAt(world.logs, logs, p);
    BelowAppended(LogOf(world.logs, p), log, x);
    var b := Below(log.records, x);
    BelowIsUnique(log, log.records[b].offset as int + 1, b + 1);
    hide DecodeSince, Serve, NextToken, StartOf, Below, LogOf, Extends, ValidLogs, OneMore, Advances;
    ServeOne(world, since, logs, p);
    var response := ServeNext(world, since, logs, p).1;
    GapIsNoAdvance(logs, token, DecodeSince(NextToken(since, response)), response.emitted, p);
  }

  lemma GapIsNoAdvance(logs: Logs, token: Offsets, next: Offsets, ds: seq<Delivery>, p: Int32)
    requires |ds| == 1 && ds[0].partition == p && p !in token && p in next
    requires Below(LogOf(logs, p).records, next[p] as int + 1) > 1
    ensures !Advances(logs, token, next, ds, p)
  {
    ProjectOne(ds, p);
    hide Below, LogOf;
  }

  /**
   * Every request with a token hands out the records that follow it, exactly if the token lies
   * inside the log and the group has passed no record of a partition that it does not mention.
   */
  lemma ResumesIff(world: World, since: string)
    requires ValidLogs(world.logs) && forall p: Int32 :: LogOf(world.logs, p).end < MAX_INT64
    ensures (forall limit: Int64, script: seq<Tick> :: DeliversBetween(world, since, limit, script))
            <==> Resumable(world, DecodeSince(since))
  {
    var token := DecodeSince(since);
    hide DecodeSince, DeliversBetween;
    if Resumable(world, token) {
      forall limit: Int64, script: seq<Tick> ensures DeliversBetween(world, since, limit, script) {
        ResumableDelivers(world, since, limit, script);
      }
    } else if p :| p in token && token[p] >= LogOf(world.logs, p).end {
      OutsideGoesWrong(world, since, p);
    } else {
      var p :| p in world.committed && p !in token
          && Below(LogOf(world.logs, p).records, Start(world.logs, world.committed, p)) != 0;
      PassedGoesWrong(world, since, p);
    }
  }

  /** The token that a request returns keeps every partition of the token it was given, whatever that was. */
  lemma TokenKeepsPartitions(world: World, since: string, limit: Int64, fault: Fault, script: seq<Tick>)
    ensures var response := Serve(world, since, limit, fault, script).1;
            DecodeSince(since).Keys <= DecodeSince(NextToken(since, response)).Keys
  {
    hide Loop, Rewound;
    var offsets := DecodeSince(since);
    if !Fails(fault, offsets) {
      var run := Loop(Fresh(Subscribed(world.logs, Rewound(world.committed, offsets, world.logs, fault))), script,
                      limit);
      NextTokenDecodes(since, run);
      assert offsets.Keys <= (offsets + run.offsets).Keys;
    }
  }

  ghost predicate KeepsOffset(world: World, since: string, limit: Int64, script: seq<Tick>, p: Int32) {
    var next := DecodeSince(NextToken(since, Serve(world, since, limit, NoFault, script).1));
    p in DecodeSince(since) ==> p in next && DecodeSince(since)[p] <= next[p]
  }

  lemma OffsetsFollowStart(start: Cursor, limit: Int64, script: seq<Tick>, p: Int32)
    requires ValidCursor(start)
    ensures var offsets := Loop(Fresh(start), script, limit).offsets;
            p in offsets ==> start.Position(p) <= offsets[p]
                             && (LogOf(start.logs, p).records == [] ==> LogOf(start.logs, p).end <= offsets[p])
  {
    var run := Loop(Fresh(start), script, limit);
    RunTracks(start, limit, script, p);
    hide Loop;
    if p in run.offsets {
      var log, d := LogOf(run.cursor.logs, p), Project(run.emitted, p);
      var base := Below(log.records, start.Position(p));
      assert d != [] && Tracks(log.records, base, d, start.Position(p), run.cursor.Position(p), Lookup(run.offsets, p));
      hide *;
      LastFollowsStart(LogOf(start.logs, p), log, base, start.Position(p), d, run.cursor.Position(p),
                       Lookup(run.offsets, p));
    }
  }

  lemma LastFollowsStart(before: Log, log: Log, base: nat, start: int, d: seq<Record>, position: int,
                         last: Option<Int64>)
    requires ValidLog(log) && Appended(before, log) && Tracks(log.records, base, d, start, position, last) && d != []
    ensures start <= last.value && (before.records == [] ==> before.end <= last.value)
  {
    FrontierMoves(log, base, start, d, position, last);
    assert log.records[base + |d| - 1] == d[|d| - 1];
  }

  /** Inside the log, and right behind a log that has no records, the token is safe. */
  predicate Safe(log: Log, offset: Int64) {
    offset < log.end || (log.records == [] && offset == log.end)
  }

  lemma SafeNeverMovesBack(world: World, since: string, limit: Int64, script: seq<Tick>, p: Int32)
    requires ValidLogs(world.logs) && p in DecodeSince(since) && Safe(LogOf(world.logs, p), DecodeSince(since)[p])
    ensures KeepsOffset(world, since, limit, script, p)
  {
    var token := DecodeSince(since);
    StartIsValid(world, token);
    StartPosition(world, token, p);
    ServeResult(world, since, limit, script);
    OffsetsFollowStart(StartCursor(world, token), limit, script, p);
  }

  /** Otherwise there is a record below the token, or can be one. */
  lemma RecordBelow(logs: Logs, p: Int32, offset: Int64) returns (more: Logs)
    requires ValidLogs(logs) && !Safe(LogOf(logs, p), offset)
    ensures more == logs || Extends(logs, more)
    ensures var records := LogOf(more, p).records; records != [] && records[0].offset < offset && Below(records, 0) == 0
  {
    assert ValidLog(LogOf(logs, p));
    if LogOf(logs, p).records == [] {
      more := OneMore(logs, p);
      OneMoreExtends(logs, p);
      NothingBelow(LogOf(more, p), 0);
    } else {
      more := logs;
      NothingBelow(LogOf(logs, p), 0);
    }
  }

  lemma UnsafeMovesBack(world: World, since: string, p: Int32)
    requires ValidLogs(world.logs) && p in DecodeSince(since) && !Safe(LogOf(world.logs, p), DecodeSince(since)[p])
    ensures exists limit, script :: !KeepsOffset(world, since, limit, script, p)
  {
    hide DecodeSince, Serve, NextToken, StartOf, Below, Extends, ValidLogs, LogOf;
    var token := DecodeSince(since);
    var logs := RecordBelow(world.logs, p, token[p]);
    StartPosition(world, token, p);
    ServeOne(world, since, logs, p);
    assert !KeepsOffset(world, since, 1, [Tick(logs, false, Deliver(p))], p);
  }

  /**
   * No run takes the token of a partition back exactly if the token lies below the end of its log,
   * or at the end of a log without records.
   */
  lemma NeverMovesBackIff(world: World, since: string, p: Int32)
    requires ValidLogs(world.logs) && p in DecodeSince(since)
    ensures (forall limit: Int64, script: seq<Tick> :: KeepsOffset(world, since, limit, script, p)) <==>
            Safe(LogOf(world.logs, p), DecodeSince(since)[p])
  {
    if Safe(LogOf(world.logs, p), DecodeSince(since)[p]) {
      forall limit: Int64, script: seq<Tick> ensures KeepsOffset(world, since, limit, script, p) {
        SafeNeverMovesBack(world, since, limit, script, p);
      }
    } else {
      UnsafeMovesBack(world, since, p);
    }
  }

  const TWO_LOGS: Logs := map[
    0 := Log([Record(0, "key", "value", true)], 1),
    1 := Log([Record(0, "key", "value", true), Record(1, "key", "value", true)], 2)]

  ghost function Take(p: Int32): Action {
    Request(1, NoFault, [Tick(TWO_LOGS, false, Deliver(p))], true)
  }

  lemma TwoLogs()
    ensures ValidLogs(TWO_LOGS)
    ensures forall p: Int32 | p == 0 || p == 1 ::
              LogOf(TWO_LOGS, p).records != [] && LogOf(TWO_LOGS, p).records[0].offset == 0
                && Below(LogOf(TWO_LOGS, p).records, 0) == 0
    ensures LogOf(TWO_LOGS, 1).end == 2 && |LogOf(TWO_LOGS, 1).records| == 2
    ensures LogOf(TWO_LOGS, 1).records[1].offset == 1 && Below(LogOf(TWO_LOGS, 1).records, 1) == 1
  {
  }

  /** Taking the first record of a partition adds the partition to the token. */
  lemma TakeOne(c: Client, p: Int32)
    requires Consistent(c) && c.world.logs == TWO_LOGS && (p == 0 || p == 1) && p !in DecodeSince(c.token)
    ensures var next := Act(c, Take(p));
            Consistent(next) && next.world.logs == TWO_LOGS && DecodeSince(next.token) == DecodeSince(c.token)[p := 0]
  {
    ActKeepsConsistent(c, Take(p));
    RewindStartsAtFrontier(c.world, DecodeSince(c.token), NoFault, p);
    TwoLogs();
    hide Consistent, Rewound, DecodeSince, Serve, NextToken, Subscribed;
    ServeOne(c.world, c.token, TWO_LOGS, p);
  }

  /** A request for which nothing arrives. */
  const SILENT_REQUEST := Request(1, NoFault, [], true)

  lemma SilentRequestRewinds(c: Client)
    requires ValidLogs(c.world.logs)
    ensures Act(c, SILENT_REQUEST).world
            == World(c.world.logs, Rewound(c.world.committed, DecodeSince(c.token), c.world.logs, NoFault))
  {
    var token := DecodeSince(c.token);
    ServeResult(c.world, c.token, 1, []);
    StartIsValid(c.world, token);
    hide Loop, Rewound, DecodeSince, Serve, Subscribed, ValidLogs, ValidCursor, NextToken;
    LogsStay(Fresh(StartCursor(c.world, token)), [], 1);
  }

  /** A rewind to a token that mentions partition 1 moves the group past its first record. */
  lemma RewindAgain(c: Client)
    requires Consistent(c) && c.world.logs == TWO_LOGS && 1 in DecodeSince(c.token) && DecodeSince(c.token)[1] == 0
    ensures var world := Act(c, SILENT_REQUEST).world;
            world.logs == TWO_LOGS && 1 in world.committed && world.committed[1] == 1
  {
    hide Act, Rewound, DecodeSince, Delivered;
    SilentRequestRewinds(c);
    RewindReachesFrontier(c.world, DecodeSince(c.token), NoFault);
  }

  /** With a token that does not mention partition 1 its second record comes first. */
  lemma SecondComesFirst(world: World, since: string)
    requires world.logs == TWO_LOGS && 1 in world.committed && world.committed[1] == 1
             && DecodeSince(since) == map[0 := 0]
    ensures var (after, response) := ServeNext(world, since, TWO_LOGS, 1);
            after.logs == TWO_LOGS && response.emitted == [Delivery(1, LogOf(TWO_LOGS, 1).records[1])]
  {
    TwoLogs();
    var token := DecodeSince(since);
    assert 0 in token && 1 !in token;
    StartPosition(world, token, 1);
    hide DecodeSince, Serve, Rewound, StartOf;
    ServeOne(world, since, TWO_LOGS, 1);
  }

  lemma Newcomer(c: Client)
    requires c == Client(World(TWO_LOGS, map[]), "", [])
    ensures Initial(c) && Consistent(c) && DecodeSince(c.token) == map[]
  {
    TwoLogs();
    assert DecodeSince("") == map[];
    hide DecodeSince, Consistent;
    ChainIsConsistent(c, []);
    assert Chain(c, []) == c;
  }

  /**
   * A token that was the latest once, but is no more, can skip records: a client that takes one
   * record of each partition, asks again, and then goes back to its first token is given the
   * second record of partition 1 and never the first.
   */
  lemma OlderTokenSkips() returns (c: Client, actions: seq<Action>)
    ensures Initial(c) && |actions| == 3
    ensures var older, now := Chain(c, actions[..1]), Chain(c, actions);
            var (after, response) := ServeNext(now.world, older.token, now.world.logs, 1);
            && !response.failed && response.emitted != []
            && !(Project(older.delivered + response.emitted, 1) <= LogOf(after.logs, 1).records)
  {
    c := Client(World(TWO_LOGS, map[]), "", []);
    actions := [Take(0), Take(1), SILENT_REQUEST];
    hide *;
    Newcomer(c);
    TakeOne(c, 0);
    var c1 := Act(c, actions[0]);
    TakeOne(c1, 1);
    var c2 := Act(c1, actions[1]);
    RewindAgain(c2);
    ChainOfThree(c, actions);
    SkipsFirst(c1, Act(c2, actions[2]).world);
  }

  lemma SkipsFirst(older: Client, world: World)
    requires Consistent(older) && older.world.logs == TWO_LOGS && DecodeSince(older.token) == map[0 := 0]
    requires world.logs == TWO_LOGS && 1 in world.committed && world.committed[1] == 1
    ensures var (after, response) := ServeNext(world, older.token, TWO_LOGS, 1);
            && !response.failed && response.emitted != []
            && !(Project(older.delivered + response.emitted, 1) <= LogOf(after.logs, 1).records)
  {
    var token := DecodeSince(older.token);
    assert 1 !in token && Project(older.delivered, 1) == [];
    TwoLogs();
    ServeResult(world, older.token, 1, [Tick(TWO_LOGS, false, Deliver(1))]);
    hide DecodeSince, Serve, Consistent;
    SecondComesFirst(world, older.token);
    var response := ServeNext(world, older.token, TWO_LOGS, 1).1;
    ProjectConcat(older.delivered, response.emitted, 1);
    ProjectOne(response.emitted, 1);
    assert Project(older.delivered + response.emitted, 1)[0] == LogOf(TWO_LOGS, 1).records[1];
  }

  lemma ChainOfThree(c: Client, actions: seq<Action>)
    requires |actions| == 3
    ensures Chain(c, actions[..1]) == Act(c, actions[0])
    ensures Chain(c, actions) == Act(Act(Act(c, actions[0]), actions[1]), actions[2])
  {
    assert actions[..1][..0] == [] && actions[..2][..1] == actions[..1] && actions[..3] == actions;
  }

  /** The offset that is noted for a partition is that of the last record it delivered. */
  lemma LastIsNoted(start: Cursor, limit: Int64, script: seq<Tick>, p: Int32)
    requires ValidCursor(start)
    ensures var run := Loop(Fresh(start), script, limit);
            var delivered := Project(run.emitted, p);
            Lookup(run.offsets, p) == if delivered == [] then None else Some(delivered[|delivered| - 1].offset)
  {
    hide Loop, ValidCursor, Project, Below, LogOf;
    RunTracks(start, limit, script, p);
  }

  lemma ServeContinues(world: World, since: string, limit: Int64, script: seq<Tick>)
    requires ValidLogs(world.logs)
    ensures var run := Loop(Fresh(StartCursor(world, DecodeSince(since))), script, limit);
            var response := Serve(world, since, limit, NoFault, script).1;
            && run.count == |run.emitted| && response.emitted == run.emitted
            && response.continuation == Continuation(run, DecodeSince(since), since)
  {
    hide Loop, DecodeSince, Rewound, Continuation;
    LoopCounts(Fresh(StartCursor(world, DecodeSince(since))), script, limit);
  }

  /** The offsets after a request: those noted in its run, and for other partitions the old ones. */
  ghost function NextOffsets(world: World, since: string, limit: Int64, script: seq<Tick>): Offsets {
    DecodeSince(since) + Loop(Fresh(StartCursor(world, DecodeSince(since))), script, limit).offsets
  }

  lemma NextOffsetsAt(world: World, since: string, limit: Int64, script: seq<Tick>, p: Int32)
    requires ValidLogs(world.logs)
    ensures var delivered := Project(Serve(world, since, limit, NoFault, script).1.emitted, p);
            Lookup(NextOffsets(world, since, limit, script), p)
            == if delivered == [] then Lookup(DecodeSince(since), p) else Some(delivered[|delivered| - 1].offset)
  {
    hide Loop, DecodeSince, StartCursor, ValidLogs, ValidCursor, Serve, Project, Lookup, Continuation;
    var token := DecodeSince(since);
    var start := StartCursor(world, token);
    StartIsValid(world, token);
    ServeContinues(world, since, limit, script);
    LastIsNoted(start, limit, script, p);
    LookupMerged(token, Loop(Fresh(start), script, limit).offsets, p);
  }

  lemma LookupMerged(a: Offsets, b: Offsets, p: Int32)
    ensures Lookup(a + b, p) == if Lookup(b, p).Some? then Lookup(b, p) else Lookup(a, p)
  {
  }

  lemma ContinuationForms(world: World, since: string, limit: Int64, script: seq<Tick>)
    requires ValidLogs(world.logs)
    ensures var response := Serve(world, since, limit, NoFault, script).1;
            && (response.emitted == [] ==> response.continuation == if since != "" then Some(since) else None)
            && (response.emitted != [] ==>
                response.continuation == Some(Since(NextOffsets(world, since, limit, script))))
  {
    hide Loop, DecodeSince, StartCursor, Serve;
    ServeContinues(world, since, limit, script);
  }

  /**
   * What the client gets to go on with: its own token, letter by letter, if nothing was emitted; and
   * otherwise the token of the map that has the last offset of every partition that delivered
   * something, and the old offset of every other.
   */
  lemma ContinuationIs(world: World, since: string, limit: Int64, script: seq<Tick>) returns (next: Offsets)
    requires ValidLogs(world.logs)
    ensures var response := Serve(world, since, limit, NoFault, script).1;
            && (response.emitted == [] ==> response.continuation == if since != "" then Some(since) else None)
            && (response.emitted != [] ==> response.continuation == Some(Since(next)))
            && forall p: Int32 ::
                 var delivered := Project(response.emitted, p);
                 Lookup(next, p) == if delivered == [] then Lookup(DecodeSince(since), p)
                                    else Some(delivered[|delivered| - 1].offset)
  {
    hide *;
    next := NextOffsets(world, since, limit, script);
    ContinuationForms(world, since, limit, script);
    forall p: Int32
      ensures var delivered := Project(Serve(world, since, limit, NoFault, script).1.emitted, p);
              Lookup(next, p) == if delivered == [] then Lookup(DecodeSince(since), p)
                                 else Some(delivered[|delivered| - 1].offset)
    {
      NextOffsetsAt(world, since, limit, script, p);
    }
  }
}
