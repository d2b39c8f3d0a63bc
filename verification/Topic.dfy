/**
 * A topic and one consumer group on it: per partition an append-only log whose offsets may have
 * gaps, the offsets the group has committed, and the positions of the one subscribed consumer.
 */
module Topic {
  import opened Decimal
  import opened Options

  /** `decodes` says whether the configured decoder accepts the value. */
  datatype Record = Record(offset: Int64, key: string, value: string, decodes: bool)

  /** `end` is the log end offset, the next one the broker will assign at the earliest. */
  datatype Log = Log(records: seq<Record>, end: Int64)

  type Logs = map<Int32, Log>
  type Committed = map<Int32, Int64>

  predicate ValidLog(log: Log) {
    && 0 <= log.end
    && (forall i | 0 <= i < |log.records| :: 0 <= log.records[i].offset < log.end)
    && (forall i, j | 0 <= i < j < |log.records| :: log.records[i].offset < log.records[j].offset)
  }

  predicate ValidLogs(logs: Logs) {
    forall p | p in logs :: ValidLog(logs[p])
  }

  function LogOf(logs: Logs, p: Int32): Log {
    if p in logs then logs[p] else Log([], 0)
  }

  /** Appending keeps the old records and gives new ones offsets from the old end onwards. */
  predicate Appended(before: Log, after: Log) {
    && before.records <= after.records
    && before.end <= after.end
    && forall i | |before.records| <= i < |after.records| :: before.end <= after.records[i].offset
  }

  predicate Extends(before: Logs, after: Logs) {
    && ValidLogs(after)
    && forall p | p in before :: p in after && Appended(before[p], after[p])
  }

  /** How many leading records lie below offset `x`. */
  function Below(records: seq<Record>, x: int): (n: nat)
    ensures n <= |records|
    ensures forall i | 0 <= i < n :: records[i].offset < x
    ensures n < |records| ==> records[n].offset >= x
  {
    if records == [] || records[0].offset >= x then 0 else 1 + Below(records[1..], x)
  }

  lemma BelowIsUnique(log: Log, x: int, n: nat)
    requires ValidLog(log) && n <= |log.records|
    requires n > 0 ==> log.records[n - 1].offset < x
    requires n < |log.records| ==> log.records[n].offset >= x
    ensures Below(log.records, x) == n
  {
  }

  lemma ExtendsAt(before: Logs, after: Logs, p: Int32)
    requires ValidLogs(before) && Extends(before, after)
    ensures ValidLog(LogOf(before, p)) && ValidLog(LogOf(after, p)) && Appended(LogOf(before, p), LogOf(after, p))
  {
  }

  lemma ExtendsTransitive(a: Logs, b: Logs, c: Logs)
    requires ValidLogs(a) && Extends(a, b) && Extends(b, c)
    ensures Extends(a, c)
  {
    forall p | p in a ensures p in c && Appended(a[p], c[p]) {
      ExtendsAt(a, b, p);
      ExtendsAt(b, c, p);
    }
  }

  /** What lies below a position within the old log is not changed by appending. */
  lemma BelowAppended(before: Log, after: Log, x: int)
    requires ValidLog(before) && ValidLog(after) && Appended(before, after) && x <= before.end
    ensures Below(after.records, x) == Below(before.records, x)
  {
    BelowIsUnique(after, x, Below(before.records, x));
  }

  /** Where the group reads a partition from; no commit, or one outside the log, means earliest. */
  function Start(logs: Logs, committed: Committed, p: Int32): (x: int)
    ensures 0 <= x
  {
    if p in committed && 0 <= committed[p] <= LogOf(logs, p).end then committed[p] else 0
  }

  datatype Cursor = Cursor(logs: Logs, positions: map<Int32, int>) {
    function Position(p: Int32): int {
      if p in positions then positions[p] else 0
    }
  }

  function Subscribed(logs: Logs, committed: Committed): Cursor {
    Cursor(logs, map p | p in committed :: Start(logs, committed, p))
  }

  /** What a poll may come back with. */
  datatype Polled = Message(partition: Int32, record: Record) | Failure(allBrokersDown: bool) | Nothing | Other

  datatype Choice = Deliver(partition: Int32) | Fail(allBrokersDown: bool) | Wait | Notify

  /**
   * What the environment does in one round of the poll loop: the log as it is by then, whether a
   * signal or a cancelled context is waiting, and otherwise what the poll is about to return.
   */
  datatype Tick = Tick(logs: Logs, stop: bool, choice: Choice)

  function Observe(logs: Logs, tick: Tick): (r: Logs)
    ensures r == logs || Extends(logs, r)
  {
    if Extends(logs, tick.logs) then tick.logs else logs
  }

  /** A partition with nothing left to deliver answers like a quiet broker. */
  function PollOf(c: Cursor, tick: Tick): (Polled, Cursor) {
    var logs := Observe(c.logs, tick);
    match tick.choice
    case Fail(allDown) => (Failure(allDown), c.(logs := logs))
    case Wait => (Nothing, c.(logs := logs))
    case Notify => (Other, c.(logs := logs))
    case Deliver(p) =>
      var records := LogOf(logs, p).records;
      var i := Below(records, c.Position(p));
      if i == |records| then (Nothing, c.(logs := logs))
      else (Message(p, records[i]), Cursor(logs, c.positions[p := records[i].offset + 1]))
  }

  /** The broker together with its one consumer of the group. */
  class Broker {
    var logs: Logs
    var committed: Committed
    var positions: map<Int32, int>

    constructor (logs: Logs, committed: Committed)
      ensures this.logs == logs && this.committed == committed && positions == map[]
    {
      this.logs, this.committed, positions := logs, committed, map[];
    }

    /** On failure the broker may have applied any part of the request. */
    method CommitOffsets(partitions: Committed, failure: Option<set<Int32>>) returns (ok: bool)
      modifies this`committed
      ensures ok == failure.None?
      ensures ok ==> committed == old(committed) + partitions
      ensures !ok ==> committed == old(committed) + (map p | p in partitions && p in failure.value :: partitions[p])
    {
      ok := failure.None?;
      if ok {
        committed := committed + partitions;
      } else {
        committed := committed + (map p | p in partitions && p in failure.value :: partitions[p]);
      }
    }

    method Subscribe()
      modifies this`positions
      ensures Cursor(logs, positions) == Subscribed(logs, committed)
    {
      positions := Subscribed(logs, committed).positions;
    }

    method Poll(tick: Tick) returns (event: Polled)
      modifies this`logs, this`positions
      ensures (event, Cursor(logs, positions)) == PollOf(old(Cursor(logs, positions)), tick)
    {
      logs := Observe(logs, tick);
      event := Nothing;
      match tick.choice {
        case Fail(allDown) => event := Failure(allDown);
        case Wait =>
        case Notify => event := Other;
        case Deliver(p) =>
          var records := LogOf(logs, p).records;
          var i := Below(records, Cursor(logs, positions).Position(p));
          if i < |records| {
            event := Message(p, records[i]);
            positions := positions[p := records[i].offset + 1];
          }
      }
    }
  }
}
