/**
 * One request against the logs: each partition hands out an unbroken stretch of its records,
 * from the position on at which the request starts reading.
 */
module Paging {
  import opened Decimal
  import opened Options
  import opened Topic
  import opened SinceToken
  import opened ChangeFeed

  /** The records of one partition, in the order of delivery. */
  function Project(ds: seq<Delivery>, p: Int32): (r: seq<Record>)
    ensures |r| <= |ds|
  {
    if ds == [] then [] else
    var d := ds[|ds| - 1];
    Project(ds[..|ds| - 1], p) + if d.partition == p then [d.record] else []
  }

  lemma ProjectAppend(ds: seq<Delivery>, d: Delivery, p: Int32)
    ensures Project(ds + [d], p) == Project(ds, p) + if d.partition == p then [d.record] else []
  {
    assert (ds + [d])[..|ds|] == ds;
  }

  lemma {:induction false} ProjectConcat(a: seq<Delivery>, b: seq<Delivery>, p: Int32)
    ensures Project(a + b, p) == Project(a, p) + Project(b, p)
  {
    if b == [] {
      assert a + b == a;
    } else {
      var init, d := b[..|b| - 1], b[|b| - 1];
      ProjectConcat(a, init, p);
      ProjectAppend(a + init, d, p);
      assert a + b == a + init + [d];
    }
  }

  /**
   * One partition in the middle of a request: the records handed out are the ones that follow the
   * start position, and both the position and the offset for the token stand right behind them.
   */
  ghost predicate Tracks(records: seq<Record>, base: nat, d: seq<Record>, start: int, position: int,
                         last: Option<Int64>)
  {
    && base == Below(records, start)
    && base + |d| <= |records| && d == records[base..base + |d|]
    && if d == [] then position == start && last == None
       else position == d[|d| - 1].offset + 1 && last == Some(d[|d| - 1].offset)
  }

  ghost predicate TracksAt(start: Cursor, c: Cursor, emitted: seq<Delivery>, offsets: Offsets, p: Int32) {
    var records := LogOf(c.logs, p).records;
    Tracks(records, Below(records, start.Position(p)), Project(emitted, p),
           start.Position(p), c.Position(p), Lookup(offsets, p))
  }

  ghost predicate ValidCursor(c: Cursor) {
    ValidLogs(c.logs) && forall p: Int32 :: 0 <= c.Position(p) <= LogOf(c.logs, p).end
  }

  ghost predicate Tracked(start: Cursor, c: Cursor, emitted: seq<Delivery>, offsets: Offsets) {
    && ValidCursor(start) && ValidLogs(c.logs) && Extends(start.logs, c.logs)
    && forall p: Int32 :: TracksAt(start, c, emitted, offsets, p)
  }

  lemma TracksLonger(records: seq<Record>, longer: seq<Record>, base: nat, d: seq<Record>, start: int, position: int,
                     last: Option<Int64>)
    requires records <= longer && Below(longer, start) == Below(records, start)
    requires Tracks(records, base, d, start, position, last)
    ensures Tracks(longer, base, d, start, position, last)
  {
  }

  /** Appends do not disturb what has been handed out. */
  lemma TracksAppended(start: Cursor, c: Cursor, emitted: seq<Delivery>, offsets: Offsets, logs: Logs, p: Int32)
    requires ValidCursor(start) && ValidLogs(c.logs) && Extends(start.logs, c.logs)
    requires Extends(c.logs, logs) && TracksAt(start, c, emitted, offsets, p)
    ensures TracksAt(start, c.(logs := logs), emitted, offsets, p)
  {
    var x := start.Position(p);
    var old0, old1, grown := LogOf(start.logs, p), LogOf(c.logs, p), LogOf(logs, p);
    assert x <= old0.end && ValidLog(old0);
    ExtendsTransitive(start.logs, c.logs, logs);
    ExtendsAt(start.logs, c.logs, p);
    ExtendsAt(start.logs, logs, p);
    ExtendsAt(c.logs, logs, p);
    hide ValidCursor, ValidLogs, Extends, LogOf;
    BelowAppended(old0, old1, x);
    BelowAppended(old0, grown, x);
    hide ValidLog, Below;
    TracksLonger(old1.records, grown.records, Below(old1.records, x), Project(emitted, p), x, c.Position(p),
                 Lookup(offsets, p));
  }

  lemma ObserveKeeps(start: Cursor, c: Cursor, emitted: seq<Delivery>, offsets: Offsets, tick: Tick)
    requires Tracked(start, c, emitted, offsets)
    ensures Tracked(start, c.(logs := Observe(c.logs, tick)), emitted, offsets)
  {
    var logs := Observe(c.logs, tick);
    if logs != c.logs {
      ExtendsTransitive(start.logs, c.logs, logs);
      hide Extends, ValidLogs, ValidCursor;
      forall p: Int32 ensures TracksAt(start, c.(logs := logs), emitted, offsets, p) {
        assert TracksAt(start, c, emitted, offsets, p);
        hide TracksAt;
        TracksAppended(start, c, emitted, offsets, logs, p);
      }
    } else {
      assert c.(logs := logs) == c;
    }
  }

  /** The next record of a partition is the one behind the tracked stretch. */
  lemma NextIsBehind(log: Log, base: nat, d: seq<Record>, start: int, position: int, last: Option<Int64>)
    requires ValidLog(log) && Tracks(log.records, base, d, start, position, last)
    ensures Below(log.records, position) == base + |d|
  {
    if d != [] {
      assert log.records[base + |d| - 1] == d[|d| - 1];
      BelowIsUnique(log, position, base + |d|);
    }
  }

  /** The next record of a partition extends the tracked stretch by one. */
  lemma TracksNext(log: Log, base: nat, d: seq<Record>, start: int, position: int, last: Option<Int64>, i: nat)
    requires ValidLog(log) && Tracks(log.records, base, d, start, position, last)
    requires i == Below(log.records, position) && i < |log.records|
    ensures var r := log.records[i];
            Tracks(log.records, base, d + [r], start, r.offset + 1, Some(r.offset))
  {
    hide ValidLog, Below;
    NextIsBehind(log, base, d, start, position, last);
    TracksGrows(log.records, base, d, start);
  }

  lemma TracksGrows(records: seq<Record>, base: nat, d: seq<Record>, start: int)
    requires base == Below(records, start) && base + |d| < |records| && d == records[base..base + |d|]
    ensures var r := records[base + |d|];
            Tracks(records, base, d + [r], start, r.offset + 1, Some(r.offset))
  {
    hide Below;
    var i := base + |d|;
    assert records[base..i + 1] == records[base..i] + [records[i]];
  }

  lemma TracksDelivered(start: Cursor, c: Cursor, emitted: seq<Delivery>, offsets: Offsets, q: Int32, i: nat, p: Int32)
    requires ValidLog(LogOf(c.logs, q)) && TracksAt(start, c, emitted, offsets, p)
    requires i == Below(LogOf(c.logs, q).records, c.Position(q)) && i < |LogOf(c.logs, q).records|
    ensures var r := LogOf(c.logs, q).records[i];
            TracksAt(start, Cursor(c.logs, c.positions[q := r.offset + 1]), emitted + [Delivery(q, r)],
                     offsets[q := r.offset], p)
  {
    var log := LogOf(c.logs, q);
    var r := log.records[i];
    ProjectAppend(emitted, Delivery(q, r), p);
    if p == q {
      TracksNext(log, Below(log.records, start.Position(q)), Project(emitted, q), start.Position(q),
                 c.Position(q), Lookup(offsets, q), i);
    } else {
      assert Project(emitted + [Delivery(q, r)], p) == Project(emitted, p);
    }
  }

  /** A poll either returns the next record of one partition or leaves all positions alone. */
  lemma PollCases(c: Cursor, tick: Tick)
    ensures var seen := c.(logs := Observe(c.logs, tick));
            var (event, next) := PollOf(c, tick);
            if !event.Message? then next == seen
            else
              && tick.choice.Deliver? && event.partition == tick.choice.partition
              && var records := LogOf(seen.logs, event.partition).records;
                 var i := Below(records, seen.Position(event.partition));
                 && i < |records| && event.record == records[i]
                 && next == Cursor(seen.logs, seen.positions[event.partition := records[i].offset + 1])
  {
    hide Observe, Below, LogOf;
  }

  /** What a poll says where it returns no record. */
  lemma PollSays(c: Cursor, tick: Tick)
    ensures tick.choice.Fail? ==> PollOf(c, tick).0 == Failure(tick.choice.allBrokersDown)
    ensures tick.choice.Wait? ==> PollOf(c, tick).0 == Nothing
    ensures tick.choice.Notify? ==> PollOf(c, tick).0 == Other
    ensures tick.choice.Deliver? && !PollOf(c, tick).0.Message? ==> PollOf(c, tick).0 == Nothing
  {
  }

  /** A round either hands out the next record of one partition or leaves the books alone. */
  lemma StepCases(run: Run, tick: Tick, limit: Int64)
    ensures var seen := run.cursor.(logs := Observe(run.cursor.logs, tick));
            var next := Step(run, tick, limit);
            if next.emitted == run.emitted then
              next.cursor == seen && next.offsets == run.offsets && next.count == run.count
            else
              && tick.choice.Deliver? && next.count == run.count + 1
              && var q := tick.choice.partition;
                 var records := LogOf(seen.logs, q).records;
                 var i := Below(records, seen.Position(q));
                 && i < |records|
                 && next.cursor == Cursor(seen.logs, seen.positions[q := records[i].offset + 1])
                 && next.emitted == run.emitted + [Delivery(q, records[i])]
                 && next.offsets == run.offsets[q := records[i].offset]
  {
    hide Observe, Below, LogOf, PollOf;
    PollCases(run.cursor, tick);
  }

  lemma StepKeeps(start: Cursor, run: Run, tick: Tick, limit: Int64)
    requires Tracked(start, run.cursor, run.emitted, run.offsets)
    ensures var next := Step(run, tick, limit); Tracked(start, next.cursor, next.emitted, next.offsets)
  {
    hide Step, Observe, Below;
    ObserveKeeps(start, run.cursor, run.emitted, run.offsets, tick);
    StepCases(run, tick, limit);
    var seen := run.cursor.(logs := Observe(run.cursor.logs, tick));
    var next := Step(run, tick, limit);
    if next.emitted != run.emitted {
      var q := tick.choice.partition;
      assert ValidLog(LogOf(seen.logs, q));
      hide Step, Observe, ValidCursor, ValidLogs, ValidLog, Extends, LogOf, Below;
      forall p: Int32 ensures TracksAt(start, next.cursor, next.emitted, next.offsets, p) {
        assert TracksAt(start, seen, run.emitted, run.offsets, p);
        hide TracksAt;
        TracksDelivered(start, seen, run.emitted, run.offsets, q,
                        Below(LogOf(seen.logs, q).records, seen.Position(q)), p);
      }
    }
  }

  lemma {:induction false} LoopKeeps(start: Cursor, run: Run, script: seq<Tick>, limit: Int64)
    requires Sane(run) && Tracked(start, run.cursor, run.emitted, run.offsets)
    ensures var r := Loop(run, script, limit); Tracked(start, r.cursor, r.emitted, r.offsets)
    decreases |script|, RoundsLeft(run)
  {
    if run.running {
      var tick := if script == [] then QuietTick(run.cursor.logs) else script[0];
      StepKeeps(start, run, tick, limit);
      hide Tracked;
      LoopKeeps(start, Step(run, tick, limit), if script == [] then [] else script[1..], limit);
    }
  }

  /** The log with one record more, at its end. */
  function Longer(log: Log): Log
    requires log.end < MAX_INT64
  {
    Log(log.records + [Record(log.end, "key", "value", true)], log.end + 1)
  }

  lemma LongerIsAppended(log: Log)
    requires ValidLog(log) && log.end < MAX_INT64
    ensures ValidLog(Longer(log)) && Appended(log, Longer(log))
  {
  }

  function OneMore(logs: Logs, p: Int32): Logs
    requires LogOf(logs, p).end < MAX_INT64
  {
    logs[p := Longer(LogOf(logs, p))]
  }

  lemma OneMoreExtends(logs: Logs, p: Int32)
    requires ValidLogs(logs) && LogOf(logs, p).end < MAX_INT64
    ensures Extends(logs, OneMore(logs, p)) && ValidLog(LogOf(OneMore(logs, p), p))
    ensures LogOf(OneMore(logs, p), p) == Longer(LogOf(logs, p))
  {
    var log, more := LogOf(logs, p), OneMore(logs, p);
    assert ValidLog(log);
    LongerIsAppended(log);
    assert more.Keys == logs.Keys + {p} && more[p] == Longer(log);
    assert forall q | q in logs && q != p :: more[q] == logs[q];
    hide Longer, OneMore, ValidLog;
    assert forall q | q in logs && q != p :: ValidLog(more[q]) && Appended(logs[q], more[q]);
  }

  /** One message ends the loop under limit one, and under limit zero. */
  lemma LoopOne(start: Cursor, logs: Logs, p: Int32, limit: Int64)
    requires logs == start.logs || Extends(start.logs, logs)
    requires 0 <= limit <= 1 && Below(LogOf(logs, p).records, start.Position(p)) < |LogOf(logs, p).records|
    ensures var record := LogOf(logs, p).records[Below(LogOf(logs, p).records, start.Position(p))];
            var run := Loop(Fresh(start), [Tick(logs, false, Deliver(p))], limit);
            && run.count == 1 && run.cursor.logs == logs
            && run.emitted == [Delivery(p, record)] && run.offsets == map[p := record.offset]
  {
    var tick := Tick(logs, false, Deliver(p));
    var next := Step(Fresh(start), tick, limit);
    assert Observe(start.logs, tick) == logs;
    hide Observe, Below, LogOf, Extends;
    assert !next.running;
    assert Loop(Fresh(start), [tick], limit) == next;
  }

  /** Nothing is appended while the request runs. */
  ghost predicate FixedLogs(logs: Logs, script: seq<Tick>) {
    forall t | t in script :: t.logs == logs
  }

  lemma {:induction false} LogsStay(run: Run, script: seq<Tick>, limit: Int64)
    requires Sane(run) && FixedLogs(run.cursor.logs, script)
    ensures Loop(run, script, limit).cursor.logs == run.cursor.logs
    decreases |script|, RoundsLeft(run)
  {
    if run.running {
      var tick := if script == [] then QuietTick(run.cursor.logs) else script[0];
      assert tick.logs == run.cursor.logs && Observe(run.cursor.logs, tick) == run.cursor.logs;
      StepCases(run, tick, limit);
      LogsStay(Step(run, tick, limit), if script == [] then [] else script[1..], limit);
    }
  }
}
