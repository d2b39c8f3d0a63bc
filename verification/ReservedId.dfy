/**
 * The id that is reserved for continuations: which records can come under it, and what that does
 * to the responses.
 */
module ReservedId {
  import opened Decimal
  import opened Options
  import opened Document
  import opened Topic
  import opened SinceToken
  import opened ChangeFeed
  import opened ResponseArray
  import opened Writes
  import Encoder
  import EntityFacts
  import ForeignTokens
  import Paging
  import PollBounds

  ghost function FirstOf(world: World, token: Offsets, p: Int32): nat {
    Below(LogOf(world.logs, p).records, ForeignTokens.StartOf(world, token, p))
  }

  /**
   * A request with this token can get to the `i`th record of the partition: it lies behind the
   * token, and no record before it stops the request.
   */
  ghost predicate Reachable(world: World, token: Offsets, p: Int32, i: nat) {
    var records := LogOf(world.logs, p).records;
    FirstOf(world, token, p) <= i < |records| && forall j | FirstOf(world, token, p) <= j < i :: records[j].decodes
  }

  lemma {:induction false} LoopOnlyAppends(run: Run, script: seq<Tick>, limit: Int64)
    requires Sane(run)
    ensures run.emitted <= Loop(run, script, limit).emitted
    decreases |script|, RoundsLeft(run)
  {
    if run.running {
      var tick := if script == [] then QuietTick(run.cursor.logs) else script[0];
      Paging.StepCases(run, tick, limit);
      LoopOnlyAppends(Step(run, tick, limit), if script == [] then [] else script[1..], limit);
    }
  }

  lemma {:induction false} ProjectDecodes(ds: seq<Delivery>, p: Int32)
    requires forall d | d in ds :: d.record.decodes
    ensures forall r | r in Paging.Project(ds, p) :: r.decodes
  {
    if ds != [] {
      ProjectDecodes(ds[..|ds| - 1], p);
    }
  }

  /** Where a delivery stands among those of its partition. */
  lemma ProjectAt(a: seq<Delivery>, d: Delivery, b: seq<Delivery>)
    ensures Paging.Project(a, d.partition) + [d.record] <= Paging.Project(a + [d] + b, d.partition)
  {
    Paging.ProjectAppend(a, d, d.partition);
    Paging.ProjectConcat(a + [d], b, d.partition);
  }

  /**
   * If a partition has delivered a stretch of its records, and only the last delivery can be
   * undecodable, then each delivery is a record of the stretch with decodable ones before it.
   */
  lemma DeliveredAt(records: seq<Record>, base: nat, ds: seq<Delivery>, k: nat) returns (i: nat)
    requires k < |ds| && forall j | 0 <= j < |ds| - 1 :: ds[j].record.decodes
    requires var stretch := Paging.Project(ds, ds[k].partition);
             base + |stretch| <= |records| && stretch == records[base..base + |stretch|]
    ensures base <= i < |records| && records[i] == ds[k].record && forall j | base <= j < i :: records[j].decodes
  {
    var a, p := ds[..k], ds[k].partition;
    ProjectDecodes(a, p);
    hide Paging.Project;
    assert ds == a + [ds[k]] + ds[k + 1..];
    ProjectAt(a, ds[k], ds[k + 1..]);
    i := base + |Paging.Project(a, p)|;
    InStretch(records, base, Paging.Project(ds, p), Paging.Project(a, p), ds[k].record);
  }

  /** Whatever a request emits was reachable. */
  lemma EmittedIsReachable(world: World, since: string, limit: Int64, script: seq<Tick>, k: nat) returns (i: nat)
    requires ValidLogs(world.logs) && Paging.FixedLogs(world.logs, script)
    requires k < |Serve(world, since, limit, NoFault, script).1.emitted|
    ensures var d := Serve(world, since, limit, NoFault, script).1.emitted[k];
            Reachable(world, DecodeSince(since), d.partition, i)
              && d.record == LogOf(world.logs, d.partition).records[i]
  {
    hide Loop, Serve, DecodeSince, Paging.Project, Below, LogOf, ValidLogs, Extends, Rewound, Subscribed,
    Paging.ValidCursor;
    var token := DecodeSince(since);
    var start := ForeignTokens.StartCursor(world, token);
    ForeignTokens.ServeResult(world, since, limit, script);
    ForeignTokens.StartIsValid(world, token);
    var run := Loop(Fresh(start), script, limit);
    var p := run.emitted[k].partition;
    ForeignTokens.RunTracks(start, limit, script, p);
    Paging.LogsStay(Fresh(start), script, limit);
    PollBounds.UndecodableComesLast(start, script, limit);
    i := DeliveredAt(LogOf(world.logs, p).records, FirstOf(world, token, p), run.emitted, k);
  }

  lemma InStretch(records: seq<Record>, base: nat, stretch: seq<Record>, d: seq<Record>, r: Record)
    requires base + |stretch| <= |records| && stretch == records[base..base + |stretch|] && d + [r] <= stretch
    requires forall x | x in d :: x.decodes
    ensures base + |d| < |records| && records[base + |d|] == r
    ensures forall j | base <= j < base + |d| :: records[j].decodes
  {
    assert stretch[|d|] == r;
    forall j | base <= j < base + |d| ensures records[j].decodes {
      assert d[j - base] == stretch[j - base] == records[j];
    }
  }

  function Repeat(tick: Tick, n: nat): (script: seq<Tick>)
    ensures |script| == n && forall t | t in script :: t == tick
  {
    seq(n, _ => tick)
  }

  lemma PollDelivers(c: Cursor, p: Int32)
    requires Below(LogOf(c.logs, p).records, c.Position(p)) < |LogOf(c.logs, p).records|
    ensures var record := LogOf(c.logs, p).records[Below(LogOf(c.logs, p).records, c.Position(p))];
            PollOf(c, Tick(c.logs, false, Deliver(p))) == (Message(p, record),
                                                           Cursor(c.logs, c.positions[p := record.offset + 1]))
  {
    assert Observe(c.logs, Tick(c.logs, false, Deliver(p))) == c.logs;
    hide Observe, Below, LogOf;
  }

  lemma DeliversOne(run: Run, p: Int32)
    requires Sane(run) && run.running && !run.cancelled && ValidLog(LogOf(run.cursor.logs, p))
    requires Below(LogOf(run.cursor.logs, p).records, run.cursor.Position(p)) < |LogOf(run.cursor.logs, p).records|
    ensures var records := LogOf(run.cursor.logs, p).records;
            var b := Below(records, run.cursor.Position(p));
            var next := Step(run, Tick(run.cursor.logs, false, Deliver(p)), -1);
            && Sane(next) && next.running && next.cancelled == !records[b].decodes
              && next.cursor.logs == run.cursor.logs
            && next.emitted == run.emitted + [Delivery(p, records[b])]
            && Below(records, next.cursor.Position(p)) == b + 1
  {
    var log := LogOf(run.cursor.logs, p);
    var b := Below(log.records, run.cursor.Position(p));
    BelowIsUnique(log, log.records[b].offset as int + 1, b + 1);
    PollDelivers(run.cursor, p);
    hide PollOf, Below, LogOf, ValidLog;
  }

  /** Polling one partition again and again gets to every record up to the first that does not decode. */
  lemma {:induction false} DeliversUpTo(run: Run, p: Int32, i: nat)
    requires Sane(run) && run.running && !run.cancelled
    requires ValidLog(LogOf(run.cursor.logs, p))
    requires var records := LogOf(run.cursor.logs, p).records;
             var b := Below(records, run.cursor.Position(p));
             b <= i < |records| && forall j | b <= j < i :: records[j].decodes
    ensures var records := LogOf(run.cursor.logs, p).records;
            var n := i - Below(records, run.cursor.Position(p)) + 1;
            Delivery(p, records[i]) in Loop(run, Repeat(Tick(run.cursor.logs, false, Deliver(p)), n), -1).emitted
    decreases i - Below(LogOf(run.cursor.logs, p).records, run.cursor.Position(p))
  {
    hide Step, Below, LogOf, ValidLog;
    var records := LogOf(run.cursor.logs, p).records;
    var b, tick := Below(records, run.cursor.Position(p)), Tick(run.cursor.logs, false, Deliver(p));
    var script, next := Repeat(tick, i - b + 1), Step(run, tick, -1);
    DeliversOne(run, p);
    assert script[0] == tick && script[1..] == Repeat(tick, i - b);
    assert Loop(run, script, -1) == Loop(next, script[1..], -1);
    if i == b {
      LoopOnlyAppends(next, script[1..], -1);
      assert next.emitted[|run.emitted|] == Delivery(p, records[b]);
    } else {
      DeliversUpTo(next, p, i);
    }
  }

  ghost predicate AtMostOneContinuation(world: World, since: string, limit: Int64, script: seq<Tick>,
                                        encode: Delivery -> EntityState)
  {
    CountContinuations(Items(Outputs(Serve(world, since, limit, NoFault, script).1), encode)) <= 1
  }

  lemma ReachableIsEmitted(world: World, since: string, p: Int32, i: nat) returns (script: seq<Tick>)
    requires ValidLogs(world.logs) && Reachable(world, DecodeSince(since), p, i)
    ensures Paging.FixedLogs(world.logs, script)
    ensures Delivery(p, LogOf(world.logs, p).records[i]) in Serve(world, since, -1, NoFault, script).1.emitted
  {
    hide Loop, Serve, DecodeSince, Below, LogOf, ValidLog, Rewound, Subscribed;
    var token := DecodeSince(since);
    var start := ForeignTokens.StartCursor(world, token);
    ForeignTokens.StartIsValid(world, token);
    LogIsValid(world.logs, p);
    script := Repeat(Tick(world.logs, false, Deliver(p)), i - FirstOf(world, token, p) + 1);
    StartReaches(world, token, start, p, i);
    hide *;
    DeliversUpTo(Fresh(start), p, i);
    ForeignTokens.ServeResult(world, since, -1, script);
  }

  lemma LogIsValid(logs: Logs, p: Int32)
    requires ValidLogs(logs)
    ensures ValidLog(LogOf(logs, p))
  {
  }

  lemma StartReaches(world: World, token: Offsets, start: Cursor, p: Int32, i: nat)
    requires Reachable(world, token, p, i) && start == ForeignTokens.StartCursor(world, token)
             && start.logs == world.logs
    ensures var run := Fresh(start);
            Sane(run) && run.running && !run.cancelled && run.cursor == start
    ensures var records := LogOf(start.logs, p).records;
            var b := Below(records, start.Position(p));
            b == FirstOf(world, token, p) && b <= i < |records| && forall j | b <= j < i :: records[j].decodes
  {
  }

  /** No record that a request with this token can get to is encoded under the reserved id. */
  ghost predicate KeptClear(world: World, token: Offsets, encode: Delivery -> EntityState) {
    forall p: Int32, i: nat | Reachable(world, token, p, i) ::
        encode(Delivery(p, LogOf(world.logs, p).records[i])).id != CONTINUATION_ID
  }

  lemma ClearMeansOne(world: World, since: string, limit: Int64, script: seq<Tick>, encode: Delivery -> EntityState)
    requires ValidLogs(world.logs) && Paging.FixedLogs(world.logs, script)
             && KeptClear(world, DecodeSince(since), encode)
    ensures AtMostOneContinuation(world, since, limit, script, encode)
  {
    hide Serve, DecodeSince;
    var emitted := Serve(world, since, limit, NoFault, script).1.emitted;
    forall k | 0 <= k < |emitted| ensures encode(emitted[k]).id != CONTINUATION_ID {
      var i := EmittedIsReachable(world, since, limit, script, k);
      assert emitted[k] == Delivery(emitted[k].partition, LogOf(world.logs, emitted[k].partition).records[i]);
    }
    OneContinuationOnPage(world, since, limit, NoFault, script, encode);
  }

  lemma NotClearMeansTwo(world: World, since: string, encode: Delivery -> EntityState) returns (script: seq<Tick>)
    requires ValidLogs(world.logs) && !KeptClear(world, DecodeSince(since), encode)
    ensures Paging.FixedLogs(world.logs, script) && !AtMostOneContinuation(world, since, -1, script, encode)
  {
    hide Serve, DecodeSince;
    var p: Int32, i: nat :| Reachable(world, DecodeSince(since), p, i)
                            && encode(Delivery(p, LogOf(world.logs, p).records[i])).id == CONTINUATION_ID;
    script := ReachableIsEmitted(world, since, p, i);
    OneContinuationOnPage(world, since, -1, NoFault, script, encode);
  }

  /**
   * On a log that stays as it is, no request with a token is answered with two continuations,
   * exactly if no record that it can get to is encoded under the reserved id.
   */
  lemma OneContinuationIff(world: World, since: string, encode: Delivery -> EntityState)
    requires ValidLogs(world.logs)
    ensures (forall limit: Int64, script: seq<Tick> | Paging.FixedLogs(world.logs, script) ::
             AtMostOneContinuation(world, since, limit, script, encode))
            <==> KeptClear(world, DecodeSince(since), encode)
  {
    hide AtMostOneContinuation, DecodeSince, KeptClear, Paging.FixedLogs;
    if KeptClear(world, DecodeSince(since), encode) {
      forall limit: Int64, script: seq<Tick> | Paging.FixedLogs(world.logs, script)
        ensures AtMostOneContinuation(world, since, limit, script, encode)
      {
        ClearMeansOne(world, since, limit, script, encode);
      }
    } else {
      var script := NotClearMeansTwo(world, since, encode);
    }
  }

  /** What the encoder can make of a record, with its headers or, if there are none, without. */
  ghost predicate IsEncoded(task: Task, items: map<string, Value>, e: EntityState) {
    exists body, js, headers ::
      Applied(EMPTY_ENTITY, EntityFacts.EntityWrites(task, items), body)
      && Applied(body, WritesOf(task.(js := js), Encoder.HeaderLeaves(headers)), e)
  }

  /** An id begins with the base namespace of the configuration, however the record was encoded. */
  lemma IdBeginsWithNamespace(task: Task, items: map<string, Value>, e: EntityState)
    requires IsEncoded(task, items, e) && e.id != ""
    ensures task.config.baseNameSpace <= e.id
  {
    var body, js, headers :| Applied(EMPTY_ENTITY, EntityFacts.EntityWrites(task, items), body)
                             && Applied(body, WritesOf(task.(js := js), Encoder.HeaderLeaves(headers)), e);
    assert Written(WritesOf(task.(js := js), Encoder.HeaderLeaves(headers)), e, IdLocation)
           || Agree(body, e, IdLocation);
    assert Written(EntityFacts.EntityWrites(task, items), body, IdLocation) || Agree(EMPTY_ENTITY, body, IdLocation);
  }

  /** So a base namespace that the reserved id does not begin with keeps every record clear of it. */
  lemma NamespaceKeepsClear(task: Task, items: map<string, Value>, e: EntityState)
    requires IsEncoded(task, items, e) && !(task.config.baseNameSpace <= CONTINUATION_ID)
    ensures e.id != CONTINUATION_ID
  {
    if e.id == CONTINUATION_ID {
      IdBeginsWithNamespace(task, items, e);
    }
  }

  const RESERVED_KEY: Logs := map[0 := Log([Record(0, "@continuation", "{\"id\":null}", true)], 1)]

  /**
   * Without a base namespace a message can take the reserved id from its key, and a request that
   * polls it is answered with two continuations.
   */
  lemma ReservedKeyIsTakenForAToken(config: Config, columns: Columns, lib: Library, encode: Delivery -> EntityState)
    requires config.baseNameSpace == ""
             && lib.format(config.entityIdConstructor, Str(CONTINUATION_ID)) == CONTINUATION_ID
    requires "id" in columns && columns["id"].isIdField && !columns["id"].ignoreField
             && columns["id"].path == "kafkaKey"
    requires forall d: Delivery ::
               Applied(EMPTY_ENTITY, EntityFacts.EntityWrites(Task(config, columns, lib, d.record.value,
                                                                   d.record.key), map["id" := Null]), encode(d))
    ensures var response := ForeignTokens.ServeNext(World(RESERVED_KEY, map[]), "", RESERVED_KEY, 0).1;
            CountContinuations(Items(Outputs(response), encode)) == 2
  {
    var world := World(RESERVED_KEY, map[]);
    var d := Delivery(0, Record(0, CONTINUATION_ID, "{\"id\":null}", true));
    var response := ForeignTokens.ServeNext(world, "", RESERVED_KEY, 0).1;
    hide Serve, EntityFacts.EntityWrites, Applied, EntityId;
    ServesReservedKey();
    ContinuationComesLast(world, "", 1, NoFault, [Tick(RESERVED_KEY, false, Deliver(0))]);
    KeyBecomesId(Task(config, columns, lib, d.record.value, d.record.key), encode(d));
    IdFromKey(Task(config, columns, lib, d.record.value, d.record.key));
    TwoAreCounted(response, d, encode);
  }

  lemma IdFromKey(task: Task)
    requires task.config.baseNameSpace == ""
    ensures EntityId(task, Str(task.key)) == task.lib.format(task.config.entityIdConstructor, Str(task.key))
  {
  }

  lemma TwoAreCounted(response: Response, d: Delivery, encode: Delivery -> EntityState)
    requires response.emitted == [d] && response.continuation.Some? && encode(d).id == CONTINUATION_ID
    ensures CountContinuations(Items(Outputs(response), encode)) == 2
  {
    var items := Items(Outputs(response), encode);
    assert |items| == 2 && items[0].ContinuationItem? && items[1].ContinuationItem?;
    assert items[..1][..0] == [] && CountContinuations(items[..1]) == 1;
  }

  lemma ServesReservedKey()
    ensures var response := ForeignTokens.ServeNext(World(RESERVED_KEY, map[]), "", RESERVED_KEY, 0).1;
            !response.failed && response.emitted == [Delivery(0, Record(0, CONTINUATION_ID, "{\"id\":null}", true))]
  {
    ReservedKeyLog();
    assert DecodeSince("") == map[];
    hide DecodeSince, Serve, Rewound, Subscribed;
    var world := World(RESERVED_KEY, map[]);
    ForeignTokens.StartPosition(world, map[], 0);
    ForeignTokens.ServeOne(world, "", RESERVED_KEY, 0);
  }

  lemma ReservedKeyLog()
    ensures ValidLogs(RESERVED_KEY) && Below(LogOf(RESERVED_KEY, 0).records, 0) == 0
    ensures LogOf(RESERVED_KEY, 0).records == [Record(0, CONTINUATION_ID, "{\"id\":null}", true)]
  {
  }

  lemma KeyBecomesId(task: Task, e: EntityState)
    requires "id" in task.columns && task.columns["id"].isIdField && !task.columns["id"].ignoreField
             && task.columns["id"].path == "kafkaKey"
    requires Applied(EMPTY_ENTITY, EntityFacts.EntityWrites(task, map["id" := Null]), e)
    ensures e.id == EntityId(task, Str(task.key))
  {
    var items: map<string, Value> := map["id" := Null];
    var ws, w := EntityFacts.EntityWrites(task, items), SetId(EntityId(task, Str(task.key)));
    assert FieldLeaves("", Obj(items), items.Keys) == {Leaf("id", "id", Null)} by {
      assert items.Keys == {"id"} && "" + "id" == "id" && Leaves("", "id", Null) == {Leaf("id", "id", Null)};
    }
    WritesOfLeaf(task, Leaf("id", "id", Null));
    assert ws == {w};
    assert Written(ws, e, IdLocation) || Untouched(ws, IdLocation);
  }
}
