/**
 * A client that follows the tokens: any number of requests, each with the latest token it has
 * accepted, with failures, lost responses and appends to the log in between and during them.
 */
module Chains {
  import opened Decimal
  import opened Options
  import opened Topic
  import opened SinceToken
  import opened ChangeFeed
  import opened Paging

  datatype Client = Client(world: World, token: string, delivered: seq<Delivery>)

  /** A response that is not `received` is lost on its way: the client keeps what it had. */
  datatype Action = Append(logs: Logs) | Request(limit: Int64, fault: Fault, script: seq<Tick>, received: bool)

  ghost function NextToken(since: string, response: Response): string {
    if response.continuation.Some? then response.continuation.value else since
  }

  ghost function Act(c: Client, a: Action): Client {
    match a
    case Append(logs) =>
      if Extends(c.world.logs, logs) then c.(world := c.world.(logs := logs)) else c
    case Request(limit, fault, script, received) =>
      var (world, response) := Serve(c.world, c.token, limit, fault, script);
      if !received || response.failed then c.(world := world)
      else Client(world, NextToken(c.token, response), c.delivered + response.emitted)
  }

  ghost function Chain(c: Client, actions: seq<Action>): Client {
    if actions == [] then c else Act(Chain(c, actions[..|actions| - 1]), actions[|actions| - 1])
  }

  lemma NextTokenDecodes(since: string, run: Run)
    ensures DecodeSince(NextToken(since, Response(false, run.emitted, Continuation(run, DecodeSince(since), since))))
            == if run.count > 0 then DecodeSince(since) + run.offsets else DecodeSince(since)
  {
    hide DecodeSince;
  }

  /** A client without a usable token, on any state of the group. */
  ghost predicate Initial(c: Client) {
    && ValidLogs(c.world.logs) && c.world.committed.Keys <= c.world.logs.Keys
    && DecodeSince(c.token) == map[] && c.delivered == []
  }

  /** How many records of a partition a token stands for. */
  function Frontier(logs: Logs, token: Offsets, p: Int32): (n: nat)
    ensures n <= |LogOf(logs, p).records|
  {
    if p in token then Below(LogOf(logs, p).records, token[p] as int + 1) else 0
  }

  /** The token lies inside the log, and outside the token the group stands at the beginning. */
  ghost predicate Anchored(world: World, token: Offsets) {
    && ValidLogs(world.logs) && world.committed.Keys <= world.logs.Keys
    && (forall p | p in token :: 0 <= token[p] < LogOf(world.logs, p).end)
    && (token != map[] ==> forall p | p in world.committed && p !in token :: world.committed[p] == 0)
  }

  /** The group stands where the token says, and at the beginning everywhere else. */
  ghost predicate AtFrontier(world: World, token: Offsets) {
    && (forall p | p in token :: p in world.committed && world.committed[p] as int == token[p] as int + 1)
    && (forall p | p in world.committed && p !in token :: world.committed[p] == 0)
  }

  ghost predicate Delivered(logs: Logs, token: Offsets, ds: seq<Delivery>) {
    forall p: Int32 :: Project(ds, p) == LogOf(logs, p).records[..Frontier(logs, token, p)]
  }

  ghost predicate Consistent(c: Client) {
    && Anchored(c.world, DecodeSince(c.token))
    && Delivered(c.world.logs, DecodeSince(c.token), c.delivered)
  }

  /** A rewind, whole, partial or not at all, leaves the world anchored. */
  lemma RewindKeepsAnchored(world: World, token: Offsets, fault: Fault)
    requires Anchored(world, token)
    ensures Anchored(World(world.logs, Rewound(world.committed, token, world.logs, fault)), token)
  {
  }

  /** After a rewind every partition is read from the frontier of the token, however the group stood before. */
  lemma RewindReachesFrontier(world: World, token: Offsets, fault: Fault)
    requires Anchored(world, token) && !Fails(fault, token)
    ensures var committed := Rewound(world.committed, token, world.logs, fault);
            AtFrontier(World(world.logs, committed), token)
  {
    if token == map[] {
      assert Rewound(world.committed, token, world.logs, fault) == world.committed + RewindTargets(token, world.logs);
    }
  }

  lemma AnchoredAppended(world: World, token: Offsets, logs: Logs)
    requires Anchored(world, token) && Extends(world.logs, logs)
    ensures Anchored(World(logs, world.committed), token)
  {
    forall p | p in token ensures token[p] < LogOf(logs, p).end {
      ExtendsAt(world.logs, logs, p);
    }
  }

  lemma FrontierAppended(world: World, token: Offsets, logs: Logs, p: Int32)
    requires Anchored(world, token) && Extends(world.logs, logs)
    ensures Frontier(logs, token, p) == Frontier(world.logs, token, p)
    ensures LogOf(world.logs, p).records <= LogOf(logs, p).records
  {
    ExtendsAt(world.logs, logs, p);
    if p in token {
      BelowAppended(LogOf(world.logs, p), LogOf(logs, p), token[p] as int + 1);
    }
  }

  lemma DeliveredAppended(world: World, token: Offsets, ds: seq<Delivery>, logs: Logs)
    requires Anchored(world, token) && Extends(world.logs, logs) && Delivered(world.logs, token, ds)
    ensures Delivered(logs, token, ds)
  {
    hide Anchored, Extends;
    forall p: Int32 ensures Project(ds, p) == LogOf(logs, p).records[..Frontier(logs, token, p)] {
      FrontierAppended(world, token, logs, p);
    }
  }

  lemma {:induction false} LoopCounts(run: Run, script: seq<Tick>, limit: Int64)
    requires Sane(run) && run.count == |run.emitted|
    ensures var r := Loop(run, script, limit); r.count == |r.emitted|
    decreases |script|, RoundsLeft(run)
  {
    if run.running {
      var tick := if script == [] then QuietTick(run.cursor.logs) else script[0];
      StepCases(run, tick, limit);
      LoopCounts(Step(run, tick, limit), if script == [] then [] else script[1..], limit);
    }
  }

  /** One partition over one request: the frontier moves by what has been handed out. */
  lemma FrontierMoves(log: Log, base: nat, start: int, d: seq<Record>, position: int, last: Option<Int64>)
    requires ValidLog(log) && Tracks(log.records, base, d, start, position, last) && d != []
    ensures Below(log.records, last.value as int + 1) == base + |d|
    ensures start <= last.value && 0 <= last.value < log.end
  {
    assert log.records[base + |d| - 1] == d[|d| - 1] && d[0] == log.records[base];
    BelowIsUnique(log, last.value as int + 1, base + |d|);
  }

  /** The records handed out are those between the frontiers of two tokens. */
  ghost predicate Advances(logs: Logs, token: Offsets, next: Offsets, ds: seq<Delivery>, p: Int32) {
    && (p in token ==> p in next && token[p] <= next[p])
    && Frontier(logs, token, p) <= Frontier(logs, next, p)
    && Project(ds, p) == LogOf(logs, p).records[Frontier(logs, token, p)..Frontier(logs, next, p)]
  }

  lemma PartitionAdvances(start: Cursor, c: Cursor, emitted: seq<Delivery>, offsets: Offsets, token: Offsets, p: Int32)
    requires ValidLog(LogOf(c.logs, p)) && TracksAt(start, c, emitted, offsets, p)
    requires Below(LogOf(c.logs, p).records, start.Position(p)) == Frontier(c.logs, token, p)
    requires p in token ==> token[p] < start.Position(p)
    ensures Advances(c.logs, token, token + offsets, emitted, p)
    ensures p in offsets ==> 0 <= offsets[p] < LogOf(c.logs, p).end
  {
    hide ValidLog, Below, LogOf, Project, Frontier, Advances;
    var log, d, x := LogOf(c.logs, p), Project(emitted, p), start.Position(p);
    var base := Below(log.records, x);
    assert Tracks(log.records, base, d, x, c.Position(p), Lookup(offsets, p));
    hide TracksAt;
    TracksEnds(log.records, base, d, x, c.Position(p), Lookup(offsets, p));
    hide Tracks;
    if d == [] {
      SilentStays(c.logs, token, offsets, emitted, p);
    } else {
      FrontierMoves(log, base, x, d, c.Position(p), Lookup(offsets, p));
      DeliveringMoves(c.logs, token, offsets, emitted, p);
    }
  }

  lemma TracksEnds(records: seq<Record>, base: nat, d: seq<Record>, start: int, position: int, last: Option<Int64>)
    requires Tracks(records, base, d, start, position, last)
    ensures base + |d| <= |records| && d == records[base..base + |d|] && (last.None? <==> d == [])
  {
  }

  /** A partition that delivered nothing stays where it was. */
  lemma SilentStays(logs: Logs, token: Offsets, offsets: Offsets, ds: seq<Delivery>, p: Int32)
    requires p !in offsets && Project(ds, p) == []
    ensures Advances(logs, token, token + offsets, ds, p)
  {
    hide Below, LogOf, Project;
  }

  /** A partition that delivered a stretch stands behind it. */
  lemma DeliveringMoves(logs: Logs, token: Offsets, offsets: Offsets, ds: seq<Delivery>, p: Int32)
    requires p in offsets && (p in token ==> token[p] <= offsets[p])
    requires var base, d := Frontier(logs, token, p), Project(ds, p);
             Below(LogOf(logs, p).records, offsets[p] as int + 1) == base + |d| <= |LogOf(logs, p).records|
             && d == LogOf(logs, p).records[base..base + |d|]
    ensures Advances(logs, token, token + offsets, ds, p)
  {
    hide Below, LogOf, Project;
    assert Frontier(logs, token + offsets, p) == Below(LogOf(logs, p).records, offsets[p] as int + 1);
    hide Frontier;
  }

  lemma StartIsFrontier(logs: Logs, token: Offsets, start: int, p: Int32)
    requires ValidLog(LogOf(logs, p)) && start == if p in token then token[p] as int + 1 else 0
    ensures Frontier(logs, token, p) == Below(LogOf(logs, p).records, start)
  {
  }

  /** The effect of one whole poll loop on the frontier of the token it started from. */
  ghost predicate Moves(before: Logs, token: Offsets, after: World, next: Offsets, ds: seq<Delivery>) {
    && Extends(before, after.logs) && Anchored(after, next)
    && forall p: Int32 :: Advances(after.logs, token, next, ds, p)
  }

  lemma AtFrontierPosition(world: World, token: Offsets, p: Int32)
    requires Anchored(world, token) && AtFrontier(world, token)
    ensures Subscribed(world.logs, world.committed).Position(p) == if p in token then token[p] as int + 1 else 0
  {
  }

  lemma TrackedAdvances(world: World, token: Offsets, c: Cursor, emitted: seq<Delivery>, offsets: Offsets, p: Int32)
    requires Anchored(world, token) && AtFrontier(world, token)
    requires Tracked(Subscribed(world.logs, world.committed), c, emitted, offsets)
    ensures Advances(c.logs, token, token + offsets, emitted, p)
    ensures p in offsets ==> 0 <= offsets[p] < LogOf(c.logs, p).end
    ensures emitted == [] ==> p !in offsets
  {
    var start := Subscribed(world.logs, world.committed);
    assert TracksAt(start, c, emitted, offsets, p);
    assert ValidLog(LogOf(c.logs, p));
    AtFrontierPosition(world, token, p);
    StartIsFrontier(c.logs, token, start.Position(p), p);
    hide Anchored, AtFrontier, Tracked;
    PartitionAdvances(start, c, emitted, offsets, token, p);
  }

  lemma NextIsAnchored(world: World, token: Offsets, logs: Logs, offsets: Offsets)
    requires Anchored(World(logs, world.committed), token) && AtFrontier(world, token)
    requires forall p | p in offsets :: 0 <= offsets[p] < LogOf(logs, p).end
    ensures Anchored(World(logs, world.committed), token + offsets)
  {
    hide LogOf, ValidLogs;
  }

  lemma TrackedMoves(world: World, token: Offsets, c: Cursor, emitted: seq<Delivery>, offsets: Offsets)
    requires Anchored(world, token) && AtFrontier(world, token)
    requires Tracked(Subscribed(world.logs, world.committed), c, emitted, offsets)
    ensures Moves(world.logs, token, World(c.logs, world.committed), token + offsets, emitted)
    ensures emitted == [] ==> offsets == map[]
  {
    assert Extends(world.logs, c.logs);
    hide Tracked, Anchored, AtFrontier, Advances, TracksAt, Extends, ValidLogs, LogOf, Subscribed, ValidCursor;
    forall p: Int32
      ensures Advances(c.logs, token, token + offsets, emitted, p)
      ensures p in offsets ==> 0 <= offsets[p] < LogOf(c.logs, p).end
      ensures emitted == [] ==> p !in offsets
    {
      TrackedAdvances(world, token, c, emitted, offsets, p);
    }
    AnchoredAppended(world, token, c.logs);
    NextIsAnchored(world, token, c.logs, offsets);
  }

  lemma FreshIsTracked(world: World, token: Offsets)
    requires Anchored(world, token)
    ensures var start := Subscribed(world.logs, world.committed);
            Tracked(start, Fresh(start).cursor, Fresh(start).emitted, Fresh(start).offsets)
  {
  }

  lemma RunMoves(world: World, token: Offsets, limit: Int64, script: seq<Tick>)
    requires Anchored(world, token) && AtFrontier(world, token)
    ensures var run := Loop(Fresh(Subscribed(world.logs, world.committed)), script, limit);
            && Moves(world.logs, token, World(run.cursor.logs, world.committed), token + run.offsets, run.emitted)
            && run.count == |run.emitted| && (run.emitted == [] ==> run.offsets == map[])
  {
    var start := Subscribed(world.logs, world.committed);
    var run := Loop(Fresh(start), script, limit);
    FreshIsTracked(world, token);
    LoopCounts(Fresh(start), script, limit);
    hide Loop, Anchored, AtFrontier, Moves, Tracked;
    LoopKeeps(start, Fresh(start), script, limit);
    TrackedMoves(world, token, run.cursor, run.emitted, run.offsets);
  }

  /** A request that gets past the rewind moves the frontier of its token to that of the token it returns. */
  lemma ServeMoves(world: World, since: string, limit: Int64, fault: Fault, script: seq<Tick>)
    requires Anchored(world, DecodeSince(since)) && !Fails(fault, DecodeSince(since))
    ensures var (after, response) := Serve(world, since, limit, fault, script);
            && !response.failed
            && after.committed == Rewound(world.committed, DecodeSince(since), world.logs, fault)
            && Moves(world.logs, DecodeSince(since), after, DecodeSince(NextToken(since, response)), response.emitted)
  {
    hide Loop, Rewound, DecodeSince, Fails, NextToken, Continuation, Moves, Anchored, AtFrontier, Subscribed;
    var m := DecodeSince(since);
    RewindKeepsAnchored(world, m, fault);
    RewindReachesFrontier(world, m, fault);
    var rewound := World(world.logs, Rewound(world.committed, m, world.logs, fault));
    var run := Loop(Fresh(Subscribed(rewound.logs, rewound.committed)), script, limit);
    RunMoves(rewound, m, limit, script);
    NextTokenDecodes(since, run);
    assert m + run.offsets == if run.count > 0 then m + run.offsets else m;
  }

  lemma FrontierSlices(before: World, token: Offsets, after: World, next: Offsets, ds: seq<Delivery>,
                       more: seq<Delivery>)
    requires Anchored(before, token) && Delivered(before.logs, token, ds)
             && Moves(before.logs, token, after, next, more)
    ensures Delivered(after.logs, next, ds + more)
  {
    DeliveredAppended(before, token, ds, after.logs);
    hide Anchored, Extends, Frontier;
    forall p: Int32 ensures Project(ds + more, p) == LogOf(after.logs, p).records[..Frontier(after.logs, next, p)] {
      assert Advances(after.logs, token, next, more, p);
      ProjectConcat(ds, more, p);
    }
  }

  /** A request, successful or not, leaves the world anchored at the token it was given. */
  lemma ServeKeepsAnchored(world: World, since: string, limit: Int64, fault: Fault, script: seq<Tick>)
    requires Anchored(world, DecodeSince(since))
    ensures var (after, response) := Serve(world, since, limit, fault, script);
            && Anchored(after, DecodeSince(since))
            && (after.logs == world.logs || Extends(world.logs, after.logs))
            && (response.failed <==> Fails(fault, DecodeSince(since)))
  {
    var m := DecodeSince(since);
    RewindKeepsAnchored(world, m, fault);
    if !Fails(fault, m) {
      ServeMoves(world, since, limit, fault, script);
      hide DecodeSince, Rewound, Fails, Serve;
      var after := Serve(world, since, limit, fault, script).0;
      AnchoredAppended(World(world.logs, Rewound(world.committed, m, world.logs, fault)), m, after.logs);
    }
  }

  /** Nothing that happens to a client breaks the agreement between its token, the group and what it has received. */
  lemma ActKeepsConsistent(c: Client, a: Action)
    requires Consistent(c)
    ensures Consistent(Act(c, a))
  {
    var m := DecodeSince(c.token);
    match a
    case Append(logs) =>
      if Extends(c.world.logs, logs) {
        AnchoredAppended(c.world, m, logs);
        DeliveredAppended(c.world, m, c.delivered, logs);
      }
    case Request(limit, fault, script, received) =>
      ServeKeepsAnchored(c.world, c.token, limit, fault, script);
      var (after, response) := Serve(c.world, c.token, limit, fault, script);
      if received && !response.failed {
        ServeMoves(c.world, c.token, limit, fault, script);
        hide Serve, DecodeSince, Anchored, Delivered, Fails, NextToken;
        FrontierSlices(c.world, m, after, DecodeSince(NextToken(c.token, response)), c.delivered, response.emitted);
      } else if after.logs != c.world.logs {
        hide Serve, DecodeSince, Anchored, Delivered, Fails;
        DeliveredAppended(c.world, m, c.delivered, after.logs);
      }
  }

  lemma {:induction false} ChainIsConsistent(c: Client, actions: seq<Action>)
    requires Initial(c)
    ensures Consistent(Chain(c, actions))
  {
    if actions == [] {
      assert forall p: Int32 :: Project(c.delivered, p) == [];
    } else {
      ChainIsConsistent(c, actions[..|actions| - 1]);
      ActKeepsConsistent(Chain(c, actions[..|actions| - 1]), actions[|actions| - 1]);
    }
  }

  /**
   * Exactly once, in order: whatever a client has accepted of one partition is the beginning of
   * that partition's log, without a gap and without a repetition, as far as its token says.
   */
  lemma ExactlyOnce(c: Client, actions: seq<Action>, p: Int32)
    requires Initial(c)
    ensures var now := Chain(c, actions);
            && Project(now.delivered, p) <= LogOf(now.world.logs, p).records
            && |Project(now.delivered, p)| == Frontier(now.world.logs, DecodeSince(now.token), p)
  {
    ChainIsConsistent(c, actions);
  }

  /** In every state of a chain, a rewind puts the group one past the token, and to the start outside it. */
  lemma ChainRewinds(c: Client, actions: seq<Action>, fault: Fault)
    requires Initial(c)
    ensures var now := Chain(c, actions);
            var token := DecodeSince(now.token);
            var rewound := World(now.world.logs, Rewound(now.world.committed, token, now.world.logs, fault));
            !Fails(fault, token) ==> AtFrontier(rewound, token)
  {
    ChainIsConsistent(c, actions);
    var now := Chain(c, actions);
    if !Fails(fault, DecodeSince(now.token)) {
      RewindReachesFrontier(now.world, DecodeSince(now.token), fault);
    }
  }

  /** A token never loses a partition and never moves back in one. */
  lemma TokenNeverMovesBack(c: Client, actions: seq<Action>, a: Action, p: Int32)
    requires Initial(c)
    ensures var before, after := DecodeSince(Chain(c, actions).token), DecodeSince(Act(Chain(c, actions), a).token);
            p in before ==> p in after && before[p] <= after[p]
  {
    ChainIsConsistent(c, actions);
    var now := Chain(c, actions);
    if a.Request? && !Fails(a.fault, DecodeSince(now.token)) {
      ServeMoves(now.world, now.token, a.limit, a.fault, a.script);
      var (after, response) := Serve(now.world, now.token, a.limit, a.fault, a.script);
      assert Advances(after.logs, DecodeSince(now.token), DecodeSince(NextToken(now.token, response)),
                      response.emitted, p);
    }
  }

  /** After a lost response the same token reads every partition from the same position again. */
  lemma RetryStartsAtTheSameFrontier(c: Client, actions: seq<Action>, lost: Action, fault: Fault, retryFault: Fault,
                                     p: Int32)
    requires Initial(c)
    requires lost.Request? && !lost.received
    ensures var now := Chain(c, actions);
            var token := DecodeSince(now.token);
            var later := Act(now, lost).world;
            !Fails(fault, token) && !Fails(retryFault, token) ==>
              Act(now, lost).token == now.token
              && Subscribed(later.logs, Rewound(later.committed, token, later.logs, retryFault)).Position(p)
                 == Subscribed(now.world.logs, Rewound(now.world.committed, token, now.world.logs, fault)).Position(p)
  {
    ChainIsConsistent(c, actions);
    var now := Chain(c, actions);
    var token := DecodeSince(now.token);
    if !Fails(fault, token) && !Fails(retryFault, token) {
      ServeKeepsAnchored(now.world, now.token, lost.limit, lost.fault, lost.script);
      var later := Act(now, lost).world;
      RewindStartsAtFrontier(now.world, token, fault, p);
      RewindStartsAtFrontier(later, token, retryFault, p);
    }
  }

  lemma RewindStartsAtFrontier(world: World, token: Offsets, fault: Fault, p: Int32)
    requires Anchored(world, token) && !Fails(fault, token)
    ensures Subscribed(world.logs, Rewound(world.committed, token, world.logs, fault)).Position(p)
            == if p in token then token[p] as int + 1 else 0
  {
    RewindKeepsAnchored(world, token, fault);
    RewindReachesFrontier(world, token, fault);
    AtFrontierPosition(World(world.logs, Rewound(world.committed, token, world.logs, fault)), token, p);
  }
}
