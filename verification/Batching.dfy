/** The producer handler: a stream of values cut into batches, and what happens to each batch. */
module Batching {
  import opened Decimal
  import opened Options
  import opened Document
  import opened Producing

  const BATCH_SIZE := 10000

  /** The entities of a stream up to the first value that is none. */
  function Parse(values: seq<Value>): (es: seq<Entity>)
    ensures |es| <= |values|
    ensures forall i | 0 <= i < |es| :: AsEntity(values[i]) == Some(es[i])
    ensures |es| < |values| ==> AsEntity(values[|es|]) == None
  {
    if values == [] || AsEntity(values[0]).None? then [] else [AsEntity(values[0]).value] + Parse(values[1..])
  }

  /** The `i`th batch: full, unless it is the last of what is left. */
  function Batch(es: seq<Entity>, i: nat): seq<Entity>
    requires i * BATCH_SIZE <= |es|
  {
    es[i * BATCH_SIZE..if (i + 1) * BATCH_SIZE <= |es| then (i + 1) * BATCH_SIZE else |es|]
  }

  /** How many batches are written if nothing goes wrong; leftovers only at the proper end of a stream. */
  function BatchCount(n: nat, complete: bool): nat {
    n / BATCH_SIZE + if complete && n % BATCH_SIZE > 0 then 1 else 0
  }

  /** Whether the `i`th batch gets through; `base` counts the writes before this request. */
  predicate GetsThrough(accepts: nat -> bool, config: Option<ProducerConfig>, base: nat, es: seq<Entity>, i: nat)
    requires i * BATCH_SIZE <= |es|
  {
    config.Some? && Sendable(config.value, Batch(es, i)) && accepts(base + i)
  }

  /** The first batch from `i` on that does not get through, or `total`. */
  function FirstFailure(accepts: nat -> bool, config: Option<ProducerConfig>, base: nat, es: seq<Entity>, i: nat,
                        total: nat): (f: nat)
    requires i <= total && total <= BatchCount(|es|, true)
    ensures i <= f <= total
    ensures forall j | i <= j < f :: GetsThrough(accepts, config, base, es, j)
    ensures f < total ==> !GetsThrough(accepts, config, base, es, f)
    decreases total - i
  {
    if i < total && GetsThrough(accepts, config, base, es, i) then
        FirstFailure(accepts, config, base, es, i + 1, total) else i
  }

  lemma FirstFailureIs(accepts: nat -> bool, config: Option<ProducerConfig>, base: nat, es: seq<Entity>, total: nat,
                       f: nat)
    requires f <= total <= BatchCount(|es|, true)
    requires forall j | 0 <= j < f :: GetsThrough(accepts, config, base, es, j)
    requires f < total ==> !GetsThrough(accepts, config, base, es, f)
    ensures FirstFailure(accepts, config, base, es, 0, total) == f
  {
  }

  /** How the request is answered; `Crashed` stands for a failed type assertion, index or nil pointer. */
  datatype Status = Done | BadRequest | Crashed

  /** The status, the number of batches that got through, and the number of values taken off the stream. */
  datatype Outcome = Outcome(status: Status, batches: nat, consumed: nat)

  function Expected(accepts: nat -> bool, config: Option<ProducerConfig>, base: nat, stream: seq<Value>): Outcome {
    if stream == [] then Outcome(Done, 0, 0)
    else if Namespaces(stream[0]).None? then Outcome(Crashed, 0, 1)
    else
      var es := Parse(stream[1..]);
      var complete := |es| == |stream| - 1;
      var total := BatchCount(|es|, complete);
      var f := FirstFailure(accepts, config, base, es, 0, total);
      var consumed := if f < |es| / BATCH_SIZE then 1 + (f + 1) * BATCH_SIZE else if complete then |stream|
          else |es| + 2;
      if f == total then Outcome(if complete then Done else Crashed, f, consumed)
      else if config.Some? && Sendable(config.value, Batch(es, f)) then Outcome(BadRequest, f, consumed)
      else Outcome(Crashed, f, consumed)
  }

  lemma SliceGrows<T>(s: seq<T>, a: nat, b: nat)
    requires a <= b < |s|
    ensures s[a..b + 1] == s[a..b] + [s[b]]
  {
  }

  /** The next value is an entity exactly if parsing does not stop at it. */
  lemma ParseStep(stream: seq<Value>, n: nat)
    requires 1 <= n < |stream| && n - 1 <= |Parse(stream[1..])|
    ensures AsEntity(stream[n]).Some? <==> n - 1 < |Parse(stream[1..])|
    ensures AsEntity(stream[n]).Some? ==> AsEntity(stream[n]).value == Parse(stream[1..])[n - 1]
  {
    assert stream[1..][n - 1] == stream[n];
  }

  /** The outcome, once the first batch that fails is known. */
  lemma Settles(accepts: nat -> bool, config: Option<ProducerConfig>, base: nat, stream: seq<Value>, f: nat)
    requires stream != [] && Namespaces(stream[0]).Some?
    requires var es := Parse(stream[1..]);
             var total := BatchCount(|es|, |es| == |stream| - 1);
             && f <= total
             && (forall j | 0 <= j < f :: GetsThrough(accepts, config, base, es, j))
             && (f < total ==> !GetsThrough(accepts, config, base, es, f))
    ensures var es := Parse(stream[1..]);
            var complete := |es| == |stream| - 1;
            var total := BatchCount(|es|, complete);
            Expected(accepts, config, base, stream)
            == Outcome(if f == total then if complete then Done else Crashed
                       else if config.Some? && Sendable(config.value, Batch(es, f)) then BadRequest else Crashed,
                       f,
                       if f < |es| / BATCH_SIZE then 1 + (f + 1) * BATCH_SIZE else if complete then |stream|
                           else |es| + 2)
  {
    var es := Parse(stream[1..]);
    FirstFailureIs(accepts, config, base, es, BatchCount(|es|, |es| == |stream| - 1), f);
  }

  /** The batches that were written, under one topic. */
  function Tagged(topic: string, sent: seq<seq<Message>>): seq<(string, seq<Message>)> {
    seq(|sent|, i requires 0 <= i < |sent| => (topic, sent[i]))
  }

  /** The batches that `sent` are the messages of have got through. */
  ghost predicate Through(accepts: nat -> bool, config: Option<ProducerConfig>, base: nat, ctx: Context,
                          es: seq<Entity>, sent: seq<seq<Message>>)
  {
    && |sent| <= BatchCount(|es|, true) && (sent != [] ==> config.Some?)
    && (forall i | 0 <= i < |sent| :: GetsThrough(accepts, config, base, es, i))
    && (forall i | 0 <= i < |sent| :: AreMessages(config.value, ctx, Batch(es, i), sent[i]))
  }

  /** `now` is what there was before and behind it `sent`, under the topic of the dataset. */
  predicate IsWritten(config: Option<ProducerConfig>, before: seq<(string, seq<Message>)>, sent: seq<seq<Message>>,
                      now: seq<(string, seq<Message>)>)
  {
    if sent == [] then now == before else config.Some? && now == before + Tagged(config.value.topic, sent)
  }

  lemma ThroughOne(accepts: nat -> bool, config: Option<ProducerConfig>, base: nat, ctx: Context, es: seq<Entity>,
                   sent: seq<seq<Message>>, messages: seq<Message>)
    requires Through(accepts, config, base, ctx, es, sent) && |sent| * BATCH_SIZE < |es|
    requires GetsThrough(accepts, config, base, es, |sent|)
    requires config.Some? && AreMessages(config.value, ctx, Batch(es, |sent|), messages)
    ensures Through(accepts, config, base, ctx, es, sent + [messages])
  {
    hide AreMessages, GetsThrough, Batch;
  }

  lemma WritesOne(config: Option<ProducerConfig>, before: seq<(string, seq<Message>)>, sent: seq<seq<Message>>,
                  now: seq<(string, seq<Message>)>, messages: seq<Message>)
    requires config.Some? && IsWritten(config, before, sent, now)
    ensures IsWritten(config, before, sent + [messages], now + [(config.value.topic, messages)])
  {
    var topic := config.value.topic;
    assert Tagged(topic, sent + [messages]) == Tagged(topic, sent) + [(topic, messages)];
  }

  class ProducerHandler {
    const producers: Producers

    constructor (producers: Producers)
      ensures this.producers == producers
    {
      this.producers := producers;
    }

    /** The first batches of `es` have got through, and their messages `sent` are what was written since `written`. */
    ghost predicate Progress(config: Option<ProducerConfig>, base: nat, written: seq<(string, seq<Message>)>,
                             ctx: Context, es: seq<Entity>, sent: seq<seq<Message>>)
      reads producers
    {
      producers.Valid() && Through(producers.accepts, config, base, ctx, es, sent)
      && IsWritten(config, written, sent, producers.written)
    }

    /** Writes one more batch. */
    method WriteBatch(dataset: string, ctx: Context, entities: seq<Entity>, ghost base: nat,
                      ghost written: seq<(string, seq<Message>)>,
                      ghost es: seq<Entity>, ghost sent: seq<seq<Message>>)
      returns (verdict: Verdict, ghost more: seq<seq<Message>>)
      requires var config := ConfigFor(producers.configs, dataset);
               Progress(config, base, written, ctx, es, sent) && producers.attempts == base + |sent|
      requires |sent| * BATCH_SIZE < |es| && entities == Batch(es, |sent|)
      modifies producers
      ensures var config := ConfigFor(producers.configs, dataset);
              && Progress(config, base, written, ctx, es, more)
              && (verdict == Accepted <==> GetsThrough(producers.accepts, config, base, es, |sent|))
              && (verdict == Rejected ==> config.Some? && Sendable(config.value, entities))
              && (verdict == Panicked ==> config.None? || !Sendable(config.value, entities))
      ensures if verdict == Accepted then |more| == |sent| + 1 && producers.attempts == base + |more| else more == sent
    {
      hide AreMessages, Sendable, Through, IsWritten, Batch, ConfigFor;
      ghost var config, before := ConfigFor(producers.configs, dataset), producers.written;
      ghost var messages;
      verdict, messages := producers.ProduceEntities(dataset, ctx, entities);
      more := sent;
      if verdict == Accepted {
        more := sent + [messages];
        ThroughOne(producers.accepts, config, base, ctx, es, sent, messages);
        WritesOne(config, written, sent, before, messages);
      }
    }

    /**
     * The stream is taken value by value: the first is the context, the others are collected, and
     * every full batch is written at once. `sent` are the messages of the batches that got through.
     */
    method Produce(dataset: string, stream: seq<Value>)
      returns (status: Status, consumed: nat, ghost sent: seq<seq<Message>>, ghost ctx: Context)
      requires producers.Valid()
      modifies producers
      ensures Outcome(status, |sent|, consumed)
              == Expected(producers.accepts, ConfigFor(producers.configs, dataset), old(producers.attempts), stream)
      ensures var es := if stream == [] then [] else Parse(stream[1..]);
              Progress(ConfigFor(producers.configs, dataset), old(producers.attempts), old(producers.written), ctx,
                       es, sent)
      ensures sent != [] ==> Namespaces(stream[0]) == Some(ctx.namespaces) && IsReverse(ctx.namespaces, ctx.lookup)
    {
      sent, ctx := [], Context("", map[], map[]);
      if stream == [] {
        return Done, 0, sent, ctx;
      }
      var context := AsContext(stream[0]);
      if context.None? {
        return Crashed, 1, sent, ctx;
      }
      ctx := context.value;
      status, consumed, sent := Collect(dataset, context.value, stream);
    }

    lemma Starts(config: Option<ProducerConfig>, base: nat, ctx: Context, es: seq<Entity>)
      requires producers.Valid()
      ensures Progress(config, base, producers.written, ctx, es, [])
    {
    }

    /** The stream breaks off at a value that is no entity: what was not yet written is lost. */
    lemma EndsBroken(config: Option<ProducerConfig>, base: nat, written: seq<(string, seq<Message>)>, ctx: Context,
                     stream: seq<Value>, sent: seq<seq<Message>>, read: nat)
      requires stream != [] && Namespaces(stream[0]).Some?
      requires Progress(config, base, written, ctx, Parse(stream[1..]), sent)
      requires |Parse(stream[1..])| == |sent| * BATCH_SIZE + read < |stream| - 1 && read < BATCH_SIZE
      ensures Expected(producers.accepts, config, base, stream) == Outcome(Crashed, |sent|, |Parse(stream[1..])| + 2)
    {
      Settles(producers.accepts, config, base, stream, |sent|);
    }

    /** A full batch does not get through. */
    lemma EndsFull(config: Option<ProducerConfig>, base: nat, written: seq<(string, seq<Message>)>, ctx: Context,
                   stream: seq<Value>, sent: seq<seq<Message>>, verdict: Verdict)
      requires stream != [] && Namespaces(stream[0]).Some?
      requires Progress(config, base, written, ctx, Parse(stream[1..]), sent)
      requires (|sent| + 1) * BATCH_SIZE <= |Parse(stream[1..])|
      requires !GetsThrough(producers.accepts, config, base, Parse(stream[1..]), |sent|)
      requires verdict == Rejected <==> config.Some? && Sendable(config.value, Batch(Parse(stream[1..]), |sent|))
      ensures Expected(producers.accepts, config, base, stream)
              == Outcome(if verdict == Rejected then BadRequest else Crashed, |sent|, 1 + (|sent| + 1) * BATCH_SIZE)
    {
      Settles(producers.accepts, config, base, stream, |sent|);
    }

    /** The stream is at its end: nothing is left over, or the leftovers do not get through. */
    lemma EndsComplete(config: Option<ProducerConfig>, base: nat, written: seq<(string, seq<Message>)>, ctx: Context,
                       stream: seq<Value>, sent: seq<seq<Message>>, verdict: Verdict)
      requires stream != [] && Namespaces(stream[0]).Some?
      requires Progress(config, base, written, ctx, Parse(stream[1..]), sent)
      requires |Parse(stream[1..])| == |stream| - 1 && |sent| >= (|stream| - 1) / BATCH_SIZE
      requires verdict == Accepted <==> |sent| == BatchCount(|stream| - 1, true)
      requires verdict != Accepted ==>
                 && !GetsThrough(producers.accepts, config, base, Parse(stream[1..]), |sent|)
                 && (verdict == Rejected <==> config.Some? && Sendable(config.value, Batch(Parse(stream[1..]), |sent|)))
      ensures Expected(producers.accepts, config, base, stream)
              == Outcome(match verdict case Accepted => Done case Rejected => BadRequest case Panicked => Crashed,
                         |sent|, |stream|)
    {
      Settles(producers.accepts, config, base, stream, |sent|);
    }

    /** Where the callback stands after `n` values: what is not yet written is in `entities`. */
    ghost predicate Collected(config: Option<ProducerConfig>, base: nat, written: seq<(string, seq<Message>)>,
                              ctx: Context,
                              stream: seq<Value>, n: nat, sent: seq<seq<Message>>, entities: seq<Entity>, read: nat)
      reads producers
    {
      && 1 <= n <= |stream|
      && Progress(config, base, written, ctx, Parse(stream[1..]), sent) && producers.attempts == base + |sent|
      && read == |entities| < BATCH_SIZE
      && n - 1 == |sent| * BATCH_SIZE + read && n - 1 <= |Parse(stream[1..])|
      && entities == Parse(stream[1..])[|sent| * BATCH_SIZE..n - 1]
    }

    lemma CollectedIs(config: Option<ProducerConfig>, base: nat, written: seq<(string, seq<Message>)>, ctx: Context,
                      stream: seq<Value>, n: nat, sent: seq<seq<Message>>, entities: seq<Entity>, read: nat)
      requires 1 <= n <= |stream| && read < BATCH_SIZE
      requires Progress(config, base, written, ctx, Parse(stream[1..]), sent) && producers.attempts == base + |sent|
      requires n - 1 == |sent| * BATCH_SIZE + read && n - 1 <= |Parse(stream[1..])|
      requires entities == Parse(stream[1..])[|sent| * BATCH_SIZE..n - 1]
      ensures Collected(config, base, written, ctx, stream, n, sent, entities, read)
    {
      hide Parse, Progress;
    }

    lemma CollectedHas(config: Option<ProducerConfig>, base: nat, written: seq<(string, seq<Message>)>, ctx: Context,
                       stream: seq<Value>, n: nat, sent: seq<seq<Message>>, entities: seq<Entity>, read: nat)
      requires Collected(config, base, written, ctx, stream, n, sent, entities, read)
      ensures Progress(config, base, written, ctx, Parse(stream[1..]), sent) && producers.attempts == base + |sent|
      ensures read < BATCH_SIZE && stream != []
    {
      hide Parse, Progress;
    }

    lemma StartsAgain(config: Option<ProducerConfig>, base: nat, written: seq<(string, seq<Message>)>, ctx: Context,
                      stream: seq<Value>, n: nat, sent: seq<seq<Message>>)
      requires 1 <= n < |stream| && n == |sent| * BATCH_SIZE <= |Parse(stream[1..])|
      requires Progress(config, base, written, ctx, Parse(stream[1..]), sent) && producers.attempts == base + |sent|
      ensures Collected(config, base, written, ctx, stream, n + 1, sent, [], 0)
    {
      hide Parse, Progress;
    }

    lemma CollectsOne(config: Option<ProducerConfig>, base: nat, written: seq<(string, seq<Message>)>, ctx: Context,
                      stream: seq<Value>, n: nat, sent: seq<seq<Message>>, entities: seq<Entity>, read: nat)
      requires Collected(config, base, written, ctx, stream, n, sent, entities, read)
      requires n < |stream| && AsEntity(stream[n]).Some?
      ensures var more := entities + [AsEntity(stream[n]).value];
              if read + 1 < BATCH_SIZE then Collected(config, base, written, ctx, stream, n + 1, sent, more, read + 1)
              else
                && n == (|sent| + 1) * BATCH_SIZE <= |Parse(stream[1..])|
                && more == Parse(stream[1..])[|sent| * BATCH_SIZE..n]
    {
      hide Parse, AsEntity, Progress;
      ParseStep(stream, n);
      assert Progress(config, base, written, ctx, Parse(stream[1..]), sent) && producers.attempts == base + |sent|
             && 1 <= n;
      var es, a := Parse(stream[1..]), |sent| * BATCH_SIZE;
      assert a + read == n - 1 < |es| && entities == es[a..n - 1] && AsEntity(stream[n]).value == es[n - 1];
      hide Collected;
      SliceGrows(es, a, n - 1);
      if read + 1 < BATCH_SIZE {
        CollectedIs(config, base, written, ctx, stream, n + 1, sent, entities + [es[n - 1]], read + 1);
      }
    }

    lemma CollectsNone(config: Option<ProducerConfig>, base: nat, written: seq<(string, seq<Message>)>, ctx: Context,
                       stream: seq<Value>, n: nat, sent: seq<seq<Message>>, entities: seq<Entity>, read: nat)
      requires Collected(config, base, written, ctx, stream, n, sent, entities, read)
      requires n < |stream| && AsEntity(stream[n]).None? && Namespaces(stream[0]).Some?
      ensures Expected(producers.accepts, config, base, stream) == Outcome(Crashed, |sent|, n + 1)
    {
      ParseStep(stream, n);
      hide Parse, AsEntity, Progress, Expected;
      EndsBroken(config, base, written, ctx, stream, sent, read);
    }

    /** The callback of the stream parser, for a value after the context; a status ends the stream. */
    method OnValue(dataset: string, ctx: Context, value: Value, entities: seq<Entity>, read: nat, ghost base: nat,
                   ghost written: seq<(string, seq<Message>)>, ghost stream: seq<Value>, ghost n: nat,
                   ghost sent: seq<seq<Message>>)
      returns (stop: Option<Status>, entities': seq<Entity>, read': nat, ghost sent': seq<seq<Message>>)
      requires n < |stream| && value == stream[n] && Namespaces(stream[0]).Some?
      requires Collected(ConfigFor(producers.configs, dataset), base, written, ctx, stream, n, sent, entities, read)
      modifies producers
      ensures var config := ConfigFor(producers.configs, dataset);
              if stop.None? then Collected(config, base, written, ctx, stream, n + 1, sent', entities', read')
              else Progress(config, base, written, ctx, Parse(stream[1..]), sent')
                   && Expected(producers.accepts, config, base, stream) == Outcome(stop.value, |sent'|, n + 1)
    {
      hide AsEntity, Parse, Progress, Expected, Collected, Namespaces, ConfigFor;
      ghost var config := ConfigFor(producers.configs, dataset);
      CollectedHas(config, base, written, ctx, stream, n, sent, entities, read);
      stop, entities', read', sent' := None, entities, read, sent;
      var entity := AsEntity(value);
      if entity.None? {
        CollectsNone(config, base, written, ctx, stream, n, sent, entities, read);
        stop := Some(Crashed);
        return;
      }
      CollectsOne(config, base, written, ctx, stream, n, sent, entities, read);
      entities' := entities' + [entity.value];
      read' := read' + 1;
      if read' == BATCH_SIZE {
        stop, sent' := OnFullBatch(dataset, ctx, entities', base, written, stream, n, sent);
        entities', read' := [], 0;
        if stop.None? {
          StartsAgain(config, base, written, ctx, stream, n, sent');
        }
      }
    }

    /** The full batch is written, and the collection starts again from nothing. */
    method OnFullBatch(dataset: string, ctx: Context, entities: seq<Entity>, ghost base: nat,
                       ghost written: seq<(string, seq<Message>)>, ghost stream: seq<Value>, ghost n: nat,
                       ghost sent: seq<seq<Message>>)
      returns (stop: Option<Status>, ghost sent': seq<seq<Message>>)
      requires stream != [] && Namespaces(stream[0]).Some?
      requires Progress(ConfigFor(producers.configs, dataset), base, written, ctx, Parse(stream[1..]), sent)
      requires producers.attempts == base + |sent|
      requires n == (|sent| + 1) * BATCH_SIZE <= |Parse(stream[1..])|
               && entities == Parse(stream[1..])[|sent| * BATCH_SIZE..n]
      modifies producers
      ensures var config := ConfigFor(producers.configs, dataset);
              && Progress(config, base, written, ctx, Parse(stream[1..]), sent')
              && if stop.None? then |sent'| == |sent| + 1 && producers.attempts == base + |sent'|
                 else Expected(producers.accepts, config, base, stream) == Outcome(stop.value, |sent'|, n + 1)
    {
      ghost var config, es := ConfigFor(producers.configs, dataset), Parse(stream[1..]);
      assert entities == Batch(es, |sent|);
      hide AreMessages, Sendable, GetsThrough, Parse, Progress, Expected;
      var verdict;
      verdict, sent' := WriteBatch(dataset, ctx, entities, base, written, es, sent);
      stop := None;
      if verdict != Accepted {
        EndsFull(config, base, written, ctx, stream, sent, verdict);
        stop := Some(if verdict == Rejected then BadRequest else Crashed);
      }
    }

    /** What follows the context: collect, write full batches, and write the leftovers at the end. */
    method Collect(dataset: string, ctx: Context, stream: seq<Value>)
      returns (status: Status, consumed: nat, ghost sent: seq<seq<Message>>)
      requires producers.Valid() && stream != [] && Namespaces(stream[0]).Some?
      modifies producers
      ensures Outcome(status, |sent|, consumed)
              == Expected(producers.accepts, ConfigFor(producers.configs, dataset), old(producers.attempts), stream)
      ensures Progress(ConfigFor(producers.configs, dataset), old(producers.attempts), old(producers.written), ctx,
                       Parse(stream[1..]), sent)
    {
      ghost var config, base, es := ConfigFor(producers.configs, dataset), producers.attempts, Parse(stream[1..]);
      Starts(config, base, ctx, es);
      hide AreMessages, Sendable, GetsThrough, AsEntity, Parse, Progress, Expected;
      sent := [];
      var read := 0;
      var entities: seq<Entity> := [];
      var n := 1;
      while n < |stream|
        invariant Collected(config, base, old(producers.written), ctx, stream, n, sent, entities, read)
      {
        var stop;
        stop, entities, read, sent := OnValue(dataset, ctx, stream[n], entities, read, base, old(producers.written),
                                              stream, n, sent);
        n := n + 1;
        if stop.Some? {
          return stop.value, n, sent;
        }
      }
      status, sent := WriteLeftovers(dataset, ctx, entities, read, base, old(producers.written), stream, sent);
      consumed := n;
    }

    /** At the end of the stream what is left over is written. */
    method WriteLeftovers(dataset: string, ctx: Context, entities: seq<Entity>, read: nat, ghost base: nat,
                          ghost written: seq<(string, seq<Message>)>, ghost stream: seq<Value>,
                          ghost sent: seq<seq<Message>>)
      returns (status: Status, ghost sent': seq<seq<Message>>)
      requires stream != [] && Namespaces(stream[0]).Some?
      requires Collected(ConfigFor(producers.configs, dataset), base, written, ctx, stream, |stream|, sent, entities,
                         read)
      modifies producers
      ensures var config := ConfigFor(producers.configs, dataset);
              && Progress(config, base, written, ctx, Parse(stream[1..]), sent')
              && Expected(producers.accepts, config, base, stream) == Outcome(status, |sent'|, |stream|)
    {
      hide AreMessages, Sendable, GetsThrough, Parse, Progress, Expected;
      ghost var config, es := ConfigFor(producers.configs, dataset), Parse(stream[1..]);
      assert |es| == |stream| - 1;
      var verdict := Accepted;
      sent' := sent;
      if read > 0 {
        assert entities == Batch(es, |sent|);
        verdict, sent' := WriteBatch(dataset, ctx, entities, base, written, es, sent);
      }
      EndsComplete(config, base, written, ctx, stream, sent', verdict);
      status := match verdict case Accepted => Done case Rejected => BadRequest case Panicked => Crashed;
    }
  }

  function Concat<T>(batches: seq<seq<T>>): seq<T> {
    if batches == [] then [] else Concat(batches[..|batches| - 1]) + batches[|batches| - 1]
  }

  function Batches(es: seq<Entity>, n: nat): (bs: seq<seq<Entity>>)
    requires n <= BatchCount(|es|, true)
  {
    seq(n, i requires 0 <= i < n => Batch(es, i))
  }

  /** The first batches together are a beginning of the entities, and all of them together are all entities. */
  lemma {:induction false} BatchesPartition(es: seq<Entity>, n: nat)
    requires n <= BatchCount(|es|, true)
    ensures Concat(Batches(es, n)) == es[..if n * BATCH_SIZE <= |es| then n * BATCH_SIZE else |es|]
    ensures n == BatchCount(|es|, true) ==> Concat(Batches(es, n)) == es
  {
    if n > 0 {
      BatchesPartition(es, n - 1);
      assert Batches(es, n)[..n - 1] == Batches(es, n - 1);
    }
  }

  /** Every batch has between one and ten thousand entities, and all but the last have ten thousand. */
  lemma BatchSizes(es: seq<Entity>, i: nat)
    requires i < BatchCount(|es|, true)
    ensures 1 <= |Batch(es, i)| <= 10000
    ensures i + 1 < BatchCount(|es|, true) ==> |Batch(es, i)| == 10000
    ensures BatchCount(|es|, true) == (|es| + 9999) / 10000
  {
  }

  lemma {:induction false} MessagesOfBatches(config: ProducerConfig, ctx: Context, es: seq<Entity>,
                                             sent: seq<seq<Message>>)
    requires |sent| <= BatchCount(|es|, true)
    requires forall i | 0 <= i < |sent| :: AreMessages(config, ctx, Batch(es, i), sent[i])
    ensures AreMessages(config, ctx, Concat(Batches(es, |sent|)), Concat(sent))
  {
    if sent != [] {
      var n := |sent| - 1;
      MessagesOfBatches(config, ctx, es, sent[..n]);
      assert Batches(es, |sent|)[..n] == Batches(es, n);
    }
  }

  /** The entities of a stream that has a context, and whether nothing else is in it. */
  predicate WellFormed(stream: seq<Value>) {
    stream != [] && Namespaces(stream[0]).Some? && |Parse(stream[1..])| == |stream| - 1
  }

  lemma AllGetThrough(accepts: nat -> bool, config: ProducerConfig, base: nat, es: seq<Entity>, i: nat)
    requires Sendable(config, es) && i < BatchCount(|es|, true) && accepts(base + i)
    ensures GetsThrough(accepts, Some(config), base, es, i)
  {
    forall j | 0 <= j < |Batch(es, i)| ensures Batch(es, i)[j] == es[i * BATCH_SIZE + j] {}
  }

  /**
   * If a well-formed stream meets a known dataset, entities that can be sent and a broker that
   * accepts the writes of this request, then the request succeeds and the messages written are those of all
   * entities, one for each, in order; every batch but the last is full.
   */
  lemma NothingIsLost(accepts: nat -> bool, config: ProducerConfig, base: nat, stream: seq<Value>, ctx: Context,
                      sent: seq<seq<Message>>)
    requires WellFormed(stream) && Sendable(config, Parse(stream[1..]))
    requires forall n: nat | base <= n < base + BatchCount(|stream| - 1, true) :: accepts(n)
    requires |sent| == Expected(accepts, Some(config), base, stream).batches <= BatchCount(|Parse(stream[1..])|, true)
    requires forall i | 0 <= i < |sent| :: AreMessages(config, ctx, Batch(Parse(stream[1..]), i), sent[i])
    ensures Expected(accepts, Some(config), base, stream) == Outcome(Done, (|stream| - 1 + 9999) / 10000, |stream|)
    ensures AreMessages(config, ctx, Parse(stream[1..]), Concat(sent))
  {
    var es := Parse(stream[1..]);
    var total := BatchCount(|es|, true);
    forall i | 0 <= i < total ensures GetsThrough(accepts, Some(config), base, es, i) {
      AllGetThrough(accepts, config, base, es, i);
    }
    hide Expected, Parse, GetsThrough, Sendable, AreMessages, Batch;
    Settles(accepts, Some(config), base, stream, total);
    MessagesOfBatches(config, ctx, es, sent);
    BatchesPartition(es, total);
  }

  /** What a rejection tells about the request. */
  lemma RejectedAt(accepts: nat -> bool, config: Option<ProducerConfig>, base: nat, stream: seq<Value>)
    requires Expected(accepts, config, base, stream).status == BadRequest
    ensures stream != [] && config.Some?
    ensures var f := Expected(accepts, config, base, stream).batches;
            && f < BatchCount(|Parse(stream[1..])|, true)
            && !accepts(base + f) && (forall n: nat | base <= n < base + f :: accepts(n))
    ensures var outcome := Expected(accepts, config, base, stream);
            var next := (outcome.batches + 1) * 10000;
            outcome.consumed == if next <= |Parse(stream[1..])| then 1 + next else |stream|
  {
    var es := Parse(stream[1..]);
    var f := FirstFailure(accepts, config, base, es, 0, BatchCount(|es|, |es| == |stream| - 1));
    hide Parse, FirstFailure, Sendable, Batch;
    forall n: nat | base <= n < base + f ensures accepts(n) {
      assert GetsThrough(accepts, config, base, es, n - base);
    }
  }

  /**
   * If a write is rejected, nothing more is taken off the stream, which is at its end only if the
   * rejected batch holds the leftovers, and the messages written are
   * those of the entities before the rejected batch.
   */
  lemma RejectionKeepsAPrefix(accepts: nat -> bool, config: ProducerConfig, base: nat, stream: seq<Value>,
                              ctx: Context, sent: seq<seq<Message>>)
    requires Expected(accepts, Some(config), base, stream).status == BadRequest && stream != []
    requires |sent| == Expected(accepts, Some(config), base, stream).batches <= BatchCount(|Parse(stream[1..])|, true)
    requires forall i | 0 <= i < |sent| :: AreMessages(config, ctx, Batch(Parse(stream[1..]), i), sent[i])
    ensures !accepts(base + |sent|) && forall n: nat | base <= n < base + |sent| :: accepts(n)
    ensures |sent| * 10000 < |Parse(stream[1..])|
            && AreMessages(config, ctx, Parse(stream[1..])[..|sent| * 10000], Concat(sent))
    ensures var next := (|sent| + 1) * 10000;
            Expected(accepts, Some(config), base, stream).consumed == if next <= |Parse(stream[1..])| then 1 + next
              else |stream|
  {
    hide Expected, Parse, Batch, AreMessages;
    RejectedAt(accepts, Some(config), base, stream);
    MessagesOfBatches(config, ctx, Parse(stream[1..]), sent);
    BatchesPartition(Parse(stream[1..]), |sent|);
  }

  /**
   * If the stream breaks off at a value that is no entity and no write failed before, the messages
   * written are those of the full batches; the entities collected since are lost.
   */
  lemma BrokenStreamKeepsFullBatches(accepts: nat -> bool, config: ProducerConfig, base: nat, stream: seq<Value>,
                                     ctx: Context, sent: seq<seq<Message>>)
    requires stream != [] && Namespaces(stream[0]).Some? && |Parse(stream[1..])| < |stream| - 1
    requires Sendable(config, Parse(stream[1..]))
    requires forall n: nat | base <= n < base + |Parse(stream[1..])| / BATCH_SIZE :: accepts(n)
    requires |sent| == Expected(accepts, Some(config), base, stream).batches <= BatchCount(|Parse(stream[1..])|, true)
    requires forall i | 0 <= i < |sent| :: AreMessages(config, ctx, Batch(Parse(stream[1..]), i), sent[i])
    ensures var n := |Parse(stream[1..])|;
            && Expected(accepts, Some(config), base, stream) == Outcome(Crashed, n / 10000, n + 2)
            && AreMessages(config, ctx, Parse(stream[1..])[..n / 10000 * 10000], Concat(sent))
  {
    var es := Parse(stream[1..]);
    var total := BatchCount(|es|, false);
    forall i | 0 <= i < total ensures GetsThrough(accepts, Some(config), base, es, i) {
      AllGetThrough(accepts, config, base, es, i);
    }
    hide Expected, Parse, GetsThrough, Sendable, AreMessages, Batch;
    Settles(accepts, Some(config), base, stream, total);
    MessagesOfBatches(config, ctx, es, sent);
    BatchesPartition(es, total);
  }

  /** `name` is a prefix without a colon, a colon, and the local name. */
  predicate IsQualified(name: string, local: string) {
    exists n | 0 <= n < |name| ::
      && name[n] == ':' && name[n + 1..] == local
      && (forall c | c in name[..n] :: c != ':') && forall c | c in local :: c != ':'
  }

  lemma QualifiedIsLocal(name: string, local: string)
    requires IsQualified(name, local)
    ensures Local(name) == Some(local)
  {
    var n :| 0 <= n < |name| && name[n] == ':' && name[n + 1..] == local && forall c | c in name[..n] :: c != ':';
    assert name == name[..n] + ":" + local;
    LocalOfQualified(name[..n], local);
  }

  /** What a message says of the entity it was made from: all of it, or without the prefixes of its names. */
  lemma MessageSays(config: ProducerConfig, ctx: Context, e: Entity, m: Message, id: string, k: string, n: string)
    requires IsMessage(config, ctx, e, m)
    ensures !config.stripProps ==> m.payload == Whole(e, ctx.namespaces)
    ensures config.stripProps && IsQualified(e.id, id) ==>
              m.payload.Stripped? && m.payload.id == id && m.payload.isDeleted == e.isDeleted
    ensures config.stripProps && k in e.properties && IsQualified(k, n) && NoClash(e.properties) ==>
              m.payload.Stripped? && n in m.payload.props && m.payload.props[n] == e.properties[k]
    ensures config.stripProps && m.payload.Stripped? && n in m.payload.props ==>
              exists j :: j in e.properties && Local(j) == Some(n) && m.payload.props[n] == e.properties[j]
    ensures m.key == if config.key == Some("id") then Key(e.id) else if config.key == Some("uuid") then RandomKey
            else NoKey
  {
    KeyIs(config, e);
    hide Local, IsQualified;
    if config.stripProps {
      if IsQualified(e.id, id) { QualifiedIsLocal(e.id, id); }
      if k in e.properties && IsQualified(k, n) && NoClash(e.properties) {
        QualifiedIsLocal(k, n);
        assert IsStripped(e.properties, m.payload.props);
      }
    }
  }

  /** A stream of a context and posted entities is read as these entities. */
  lemma {:induction false} PostedAreParsed(values: seq<Value>, es: seq<Entity>)
    requires |values| == |es|
    requires forall i | 0 <= i < |es| :: values[i] == Posted(es[i]) && es[i].id != "@continuation" && es[i].token.None?
    ensures Parse(values) == es
  {
    if es != [] {
      PostedIsRead(es[0]);
      PostedAreParsed(values[1..], es[1..]);
    }
  }

  /** From the posted entities to the messages: one for each, in order, and saying what was posted. */
  lemma PostedArrive(accepts: nat -> bool, config: ProducerConfig, base: nat, stream: seq<Value>, es: seq<Entity>,
                     ctx: Context, sent: seq<seq<Message>>)
    requires |stream| == |es| + 1 && Namespaces(stream[0]) == Some(ctx.namespaces) && Sendable(config, es)
    requires forall i | 0 <= i < |es| ::
             stream[i + 1] == Posted(es[i]) && es[i].id != "@continuation" && es[i].token.None?
    requires forall n: nat | base <= n < base + BatchCount(|es|, true) :: accepts(n)
    requires |sent| == Expected(accepts, Some(config), base, stream).batches <= BatchCount(|Parse(stream[1..])|, true)
    requires forall i | 0 <= i < |sent| :: AreMessages(config, ctx, Batch(Parse(stream[1..]), i), sent[i])
    ensures Expected(accepts, Some(config), base, stream) == Outcome(Done, (|es| + 9999) / 10000, |es| + 1)
    ensures |Concat(sent)| == |es| && forall i | 0 <= i < |es| :: IsMessage(config, ctx, es[i], Concat(sent)[i])
  {
    PostedAreParsed(stream[1..], es);
    hide Parse, Expected, Batch, IsMessage;
    NothingIsLost(accepts, config, base, stream, ctx, sent);
  }

  /** The answers where no batch gets as far as being written. */
  lemma OtherAnswers(accepts: nat -> bool, config: Option<ProducerConfig>, base: nat, stream: seq<Value>)
    ensures stream == [] ==> Expected(accepts, config, base, stream) == Outcome(Done, 0, 0)
    ensures stream != [] && Namespaces(stream[0]) == None ==>
            Expected(accepts, config, base, stream) == Outcome(Crashed, 0, 1)
    ensures |stream| == 1 && Namespaces(stream[0]).Some? ==>
            Expected(accepts, config, base, stream) == Outcome(Done, 0, 1)
    ensures config.None? && WellFormed(stream) && |stream| > 1 ==>
              Expected(accepts, config, base, stream).status == Crashed
                && Expected(accepts, config, base, stream).batches == 0
  {
  }

  /**
   * A request whose entities can be sent is turned down exactly if one of its writes is, and then
   * it is the first of these that ends it.
   */
  lemma RejectedIff(accepts: nat -> bool, config: ProducerConfig, base: nat, stream: seq<Value>)
    requires WellFormed(stream) && Sendable(config, Parse(stream[1..]))
    ensures var outcome := Expected(accepts, Some(config), base, stream);
            var total := BatchCount(|stream| - 1, true);
            && (outcome.status == BadRequest <==> exists n: nat :: base <= n < base + total && !accepts(n))
            && (outcome.status != BadRequest ==> outcome == Outcome(Done, total, |stream|))
            && (outcome.status == BadRequest ==>
                  outcome.batches < total && !accepts(base + outcome.batches)
                  && forall n: nat | base <= n < base + outcome.batches :: accepts(n))
  {
    var es := Parse(stream[1..]);
    var total := BatchCount(|es|, true);
    var f := FirstFailure(accepts, Some(config), base, es, 0, total);
    forall i | 0 <= i < total ensures GetsThrough(accepts, Some(config), base, es, i) <==> accepts(base + i) {
      SendableBatch(config, es, i);
    }
    hide Parse, FirstFailure, Sendable, Batch, GetsThrough;
    forall n: nat | base <= n < base + f ensures accepts(n) {
      assert GetsThrough(accepts, Some(config), base, es, n - base);
    }
    SendableBatch(config, es, if f < total then f else 0);
  }

  lemma SendableBatch(config: ProducerConfig, es: seq<Entity>, i: nat)
    requires Sendable(config, es) && i * BATCH_SIZE <= |es|
    ensures Sendable(config, Batch(es, i))
  {
    forall j | 0 <= j < |Batch(es, i)| ensures Batch(es, i)[j] == es[i * BATCH_SIZE + j] {}
  }
}
