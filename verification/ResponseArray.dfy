/** The body of a change response: one JSON array, written piece by piece while the request runs. */
module ResponseArray {
  import opened Decimal
  import opened Options
  import opened Document
  import opened Topic
  import opened SinceToken
  import opened ChangeFeed
  import opened Writes
  import Chains

  datatype Item = ContextItem | EntityItem(entity: EntityState) | ContinuationItem(token: Option<Value>)

  /** The pieces that are written: the brackets, the commas, and whole encoded values. */
  datatype Piece = Open | Comma | Close | Element(item: Item)

  const CONTINUATION_ID := "@continuation"

  /** Section 5 of RFC 8259, after the first value: a comma and a value, again and again, and the closing bracket. */
  function ParseRest(ps: seq<Piece>): Option<seq<Item>> {
    if ps == [Close] then Some([])
    else if |ps| >= 2 && ps[0] == Comma && ps[1].Element? then
      match ParseRest(ps[2..])
      case None => None
      case Some(items) => Some([ps[1].item] + items)
    else None
  }

  /** The items of an array, if the pieces are one. */
  function ParseArray(ps: seq<Piece>): Option<seq<Item>> {
    if ps == [Open, Close] then Some([])
    else if |ps| >= 2 && ps[0] == Open && ps[1].Element? then
      match ParseRest(ps[2..])
      case None => None
      case Some(items) => Some([ps[1].item] + items)
    else None
  }

  function Separated(items: seq<Item>): (ps: seq<Piece>) {
    if items == [] then [] else Separated(items[..|items| - 1]) + [Comma, Element(items[|items| - 1])]
  }

  lemma {:induction false} ParseSeparated(items: seq<Item>, ps: seq<Piece>)
    ensures ParseRest(Separated(items) + ps) ==
            match ParseRest(ps) case None => None case Some(more) => Some(items + more)
  {
    if items == [] {
      assert Separated(items) + ps == ps;
      assert ParseRest(ps).Some? ==> items + ParseRest(ps).value == ParseRest(ps).value;
    } else {
      var init, last := items[..|items| - 1], items[|items| - 1];
      var tail := [Comma, Element(last)] + ps;
      assert Separated(items) + ps == Separated(init) + tail;
      ParseSeparated(init, tail);
      assert tail[2..] == ps && tail != [Close];
      assert ParseRest(ps).Some? ==> init + ([last] + ParseRest(ps).value) == items + ParseRest(ps).value;
    }
  }

  lemma BodyParses(items: seq<Item>)
    ensures ParseArray([Open, Element(ContextItem)] + Separated(items) + [Close]) == Some([ContextItem] + items)
  {
    var ps := [Open, Element(ContextItem)] + Separated(items) + [Close];
    assert ps[2..] == Separated(items) + [Close];
    ParseSeparated(items, [Close]);
    assert items + [] == items;
  }

  /** The pieces are an array of the items: brackets around them, and a comma in front of every item but the first. */
  predicate IsArrayOf(ps: seq<Piece>, items: seq<Item>) {
    var n := |items|;
    && |ps| == (if n == 0 then 2 else 2 * n + 1) && ps[0] == Open && ps[|ps| - 1] == Close
    && (forall i | 0 <= i < n :: ps[2 * i + 1] == Element(items[i]))
    && forall i | 1 <= i < n :: ps[2 * i] == Comma
  }

  predicate IsRestOf(ps: seq<Piece>, items: seq<Item>) {
    && |ps| == 2 * |items| + 1 && ps[|ps| - 1] == Close
    && forall i | 0 <= i < |items| :: ps[2 * i] == Comma && ps[2 * i + 1] == Element(items[i])
  }

  lemma {:induction false} ParseRestIff(ps: seq<Piece>, items: seq<Item>)
    ensures ParseRest(ps) == Some(items) <==> IsRestOf(ps, items)
  {
    if |ps| >= 2 && ps[0] == Comma && ps[1].Element? {
      if items != [] {
        ParseRestIff(ps[2..], items[1..]);
        RestStep(ps, items);
        if ParseRest(ps) == Some(items) { assert items[1..] == ParseRest(ps[2..]).value; }
        if IsRestOf(ps, items) { assert items == [ps[1].item] + items[1..]; }
      }
    } else if items != [] {
      RestStep(ps, items);
    } else {
      assert IsRestOf(ps, items) ==> ps == [Close];
    }
  }

  lemma RestStep(ps: seq<Piece>, items: seq<Item>)
    requires items != []
    ensures IsRestOf(ps, items) <==>
              |ps| >= 2 && ps[0] == Comma && ps[1] == Element(items[0]) && IsRestOf(ps[2..], items[1..])
  {
    if IsRestOf(ps, items) {
      assert ps[2 * 0] == Comma && ps[2 * 0 + 1] == Element(items[0]);
      forall i | 0 <= i < |items[1..]| ensures ps[2..][2 * i] == Comma && ps[2..][2 * i + 1] == Element(items[1..][i]) {
        assert ps[2 * (i + 1)] == Comma && ps[2 * (i + 1) + 1] == Element(items[i + 1]);
      }
    }
    if |ps| >= 2 && ps[0] == Comma && ps[1] == Element(items[0]) && IsRestOf(ps[2..], items[1..]) {
      forall i | 0 <= i < |items| ensures ps[2 * i] == Comma && ps[2 * i + 1] == Element(items[i]) {
        if i > 0 { assert ps[2..][2 * (i - 1)] == Comma && ps[2..][2 * (i - 1) + 1] == Element(items[1..][i - 1]); }
      }
    }
  }

  /** The reader accepts exactly the arrays, and finds their items. */
  lemma ParseArrayIff(ps: seq<Piece>, items: seq<Item>)
    ensures ParseArray(ps) == Some(items) <==> IsArrayOf(ps, items)
  {
    if items != [] && |ps| >= 2 && ps[0] == Open && ps[1].Element? {
      ParseRestIff(ps[2..], items[1..]);
      ArrayStep(ps, items);
      if ParseArray(ps) == Some(items) { assert items[1..] == ParseRest(ps[2..]).value; }
      if IsArrayOf(ps, items) { assert items == [ps[1].item] + items[1..]; }
    } else if items != [] {
      ArrayStep(ps, items);
    } else {
      assert IsArrayOf(ps, items) ==> ps == [Open, Close];
    }
  }

  lemma ArrayStep(ps: seq<Piece>, items: seq<Item>)
    requires items != []
    ensures IsArrayOf(ps, items) <==>
              |ps| >= 2 && ps[0] == Open && ps[1] == Element(items[0]) && IsRestOf(ps[2..], items[1..])
  {
    if IsArrayOf(ps, items) {
      assert ps[2 * 0 + 1] == Element(items[0]);
      forall i | 0 <= i < |items[1..]| ensures ps[2..][2 * i] == Comma && ps[2..][2 * i + 1] == Element(items[1..][i]) {
        assert ps[2 * (i + 1)] == Comma && ps[2 * (i + 1) + 1] == Element(items[i + 1]);
      }
    }
    if |ps| >= 2 && ps[0] == Open && ps[1] == Element(items[0]) && IsRestOf(ps[2..], items[1..]) {
      forall i | 0 <= i < |items| ensures ps[2 * i + 1] == Element(items[i]) && (i > 0 ==> ps[2 * i] == Comma) {
        if i > 0 { assert ps[2..][2 * (i - 1)] == Comma && ps[2..][2 * (i - 1) + 1] == Element(items[1..][i - 1]); }
      }
    }
  }

  /** The entity under which a continuation is handed to the callback. */
  function ContinuationEntity(token: string): EntityState {
    EntityState(CONTINUATION_ID, false, map[], map["token" := Str(token)])
  }

  /** The entity that the callback gets for an output. */
  function EntityOf(output: Output, encode: Delivery -> EntityState): EntityState {
    match output
    case Entity(d) => encode(d)
    case ContinuationToken(token) => ContinuationEntity(token)
  }

  /** What the callback writes for an entity; it goes by the id alone. */
  function ItemOf(e: EntityState): Item {
    if e.id == CONTINUATION_ID then
        ContinuationItem(if "token" in e.properties then Some(e.properties["token"]) else None)
    else EntityItem(e)
  }

  function Items(outputs: seq<Output>, encode: Delivery -> EntityState): (items: seq<Item>) {
    seq(|outputs|, i requires 0 <= i < |outputs| => ItemOf(EntityOf(outputs[i], encode)))
  }

  /** The items are the context, an item for each record, and the continuation with the token of the response. */
  ghost predicate Shows(items: seq<Item>, response: Response, encode: Delivery -> EntityState) {
    var n := |response.emitted|;
    && |items| == 1 + n + (if response.continuation.Some? then 1 else 0)
    && items[0] == ContextItem
    && (forall i | 0 <= i < n && encode(response.emitted[i]).id != "@continuation" ::
          items[1 + i] == EntityItem(encode(response.emitted[i])))
    && (response.continuation.Some? ==> items[1 + n] == ContinuationItem(Some(Str(response.continuation.value))))
  }

  lemma OutputsShow(response: Response, encode: Delivery -> EntityState)
    ensures Shows([ContextItem] + Items(Outputs(response), encode), response, encode)
  {
  }

  /** One request's response: the status and the pieces written so far. */
  class ResponseWriter {
    var status: nat
    var body: seq<Piece>

    constructor ()
      ensures body == []
    {
      status, body := 0, [];
    }

    method Callback(entity: EntityState)
      modifies this`body
      ensures body == old(body) + [Comma, Element(ItemOf(entity))]
    {
      if entity.id == CONTINUATION_ID {
        body := body + [Comma];
        body := body + [Element(ContinuationItem(if "token" in entity.properties then Some(entity.properties["token"])
                                                 else None))];
      } else {
        body := body + [Comma];
        body := body + [Element(EntityItem(entity))];
      }
    }

    /** The callback, for one output after the other. */
    method Deliver(outputs: seq<Output>, encode: Delivery -> EntityState)
      modifies this`body
      ensures body == old(body) + Separated(Items(outputs, encode))
    {
      for i := 0 to |outputs|
        invariant body == old(body) + Separated(Items(outputs[..i], encode))
      {
        Callback(EntityOf(outputs[i], encode));
        assert Items(outputs[..i + 1], encode)[..i] == Items(outputs[..i], encode);
      }
      assert outputs[..|outputs|] == outputs;
    }

    /** The callback only appends to the body, so it makes no difference that the outputs are collected first. */
    method Consume(known: bool, consumer: Consumer, since: string, limit: Int64, fault: Fault, script: seq<Tick>,
                   encode: Delivery -> EntityState)
      requires body == []
      modifies this, consumer.broker
      ensures !known ==> status == 404 && body == [] && unchanged(consumer.broker)
      ensures known ==>
                var (world, response) := Serve(old(World(consumer.broker.logs, consumer.broker.committed)), since,
                                               limit, fault, script);
                && status == 200
                && World(consumer.broker.logs, consumer.broker.committed) == world
                && ParseArray(body) == Some([ContextItem] + Items(Outputs(response), encode))
                && Shows(ParseArray(body).value, response, encode)
    {
      if !known {
        status := 404;
        return;
      }
      status := 200;
      body := body + [Open];
      body := body + [Element(ContextItem)];
      assert body == [Open, Element(ContextItem)];
      var failed, outputs := consumer.ChangeSet(since, limit, fault, script);
      hide Serve;
      Deliver(outputs, encode);
      body := body + [Close];
      BodyParses(Items(outputs, encode));
      OutputsShow(Serve(old(World(consumer.broker.logs, consumer.broker.committed)), since, limit, fault, script).1,
                  encode);
    }
  }

  function CountContinuations(items: seq<Item>): (n: nat) {
    if items == [] then 0 else
    CountContinuations(items[..|items| - 1]) + if items[|items| - 1].ContinuationItem? then 1 else 0
  }

  lemma {:induction false} NoContinuations(items: seq<Item>)
    ensures CountContinuations(items) == 0 <==> forall i | 0 <= i < |items| :: !items[i].ContinuationItem?
  {
    if items != [] {
      NoContinuations(items[..|items| - 1]);
    }
  }

  /**
   * A request that gets to its end is answered with a continuation exactly when it emitted a
   * record or was given a token, and that continuation comes last.
   */
  lemma ContinuationComesLast(world: World, since: string, limit: Int64, fault: Fault, script: seq<Tick>)
    ensures var response := Serve(world, since, limit, fault, script).1;
            && (!response.failed ==> (response.continuation.Some? <==> response.emitted != [] || since != ""))
            && (response.failed ==> response.emitted == [] && response.continuation == None)
            && (response.continuation.Some? ==>
                Outputs(response) == Entities(response.emitted) + [ContinuationToken(response.continuation.value)])
  {
    var offsets := DecodeSince(since);
    if !Fails(fault, offsets) {
      var start := Subscribed(world.logs, Rewound(world.committed, offsets, world.logs, fault));
      Chains.LoopCounts(Fresh(start), script, limit);
    }
  }

  /**
   * The reader finds one continuation at most exactly when no record of the page was encoded under
   * the id that is reserved for it: the callback cannot tell the two apart.
   */
  lemma OneContinuationOnPage(world: World, since: string, limit: Int64, fault: Fault, script: seq<Tick>,
                              encode: Delivery -> EntityState)
    ensures var response := Serve(world, since, limit, fault, script).1;
            CountContinuations(Items(Outputs(response), encode)) <= 1 <==>
            forall i | 0 <= i < |response.emitted| :: encode(response.emitted[i]).id != CONTINUATION_ID
  {
    ContinuationComesLast(world, since, limit, fault, script);
    var response := Serve(world, since, limit, fault, script).1;
    hide Serve, Continuation;
    var records := Items(Entities(response.emitted), encode);
    NoContinuations(records);
    assert forall i | 0 <= i < |records| :: records[i] == ItemOf(encode(response.emitted[i]));
    if response.continuation.Some? {
      var all := Items(Outputs(response), encode);
      assert all[..|all| - 1] == records && all[|all| - 1].ContinuationItem?;
    } else {
      assert Outputs(response) == Entities(response.emitted);
      assert response.emitted == [];
    }
  }
}
