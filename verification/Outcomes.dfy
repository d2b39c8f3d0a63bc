/** The entities that a document can be encoded as, with headers and without, and when there is only one. */
module Outcomes {
  import opened Decimal
  import opened Document
  import opened Encoder
  import opened Options
  import opened WalkOrder
  import opened Writes

  /** `Encode` can turn the document into this entity, the maps walked in some order. */
  ghost predicate IsOutcome(task: Task, items: map<string, Value>, e: EntityState) {
    PanicFree(Obj(items)) && exists ws :: FieldsLead(task, "", Obj(items), items.Keys, EMPTY_ENTITY, ws, e)
  }

  /** A walk of the document and then of its headers, whose lookups go to their own text `js`. */
  ghost predicate IsFullWalk(task: Task, items: map<string, Value>, headers: map<string, string>, js: string,
                             ws: seq<Write>)
  {
    exists a, b ::
      && IsFieldWalk(task, "", Obj(items), items.Keys, a)
      && IsFieldWalk(task.(js := js), HEADER_PREFIX, HeaderObject(headers), headers.Keys, b)
      && ws == a + b
  }

  /** `EncodeWithHeaders` can turn the document and its headers into this entity. */
  ghost predicate IsOutcomeWithHeaders(
    task: Task, items: map<string, Value>, headers: map<string, string>, js: string, e: EntityState)
  {
    PanicFree(Obj(items)) && exists ws :: IsFullWalk(task, items, headers, js, ws) && e == PutAll(EMPTY_ENTITY, ws)
  }

  /** What `EncodeWithHeaders` promises of its result is that it is an outcome. */
  lemma HeadersGiveOutcome(task: Task, items: map<string, Value>, headers: map<string, string>, js: string,
                           a: seq<Write>, body: EntityState, b: seq<Write>, e: EntityState)
    requires PanicFree(Obj(items)) && FieldsLead(task, "", Obj(items), items.Keys, EMPTY_ENTITY, a, body)
    requires FieldsLead(task.(js := js), HEADER_PREFIX, HeaderObject(headers), headers.Keys, body, b, e)
    ensures IsOutcomeWithHeaders(task, items, headers, js, e)
  {
    PutAllConcat(EMPTY_ENTITY, a, b);
    assert IsFullWalk(task, items, headers, js, a + b);
  }

  /** The writes to one place that can come last in a walk of the document. */
  ghost function LastDocumentWrites(task: Task, at: Location, items: map<string, Value>): set<Write> {
    FieldLastWrites(task, at, "", Obj(items), items.Keys)
  }

  /** The same with headers: they come after the document. */
  ghost function LastFullWrites(
    task: Task, at: Location, items: map<string, Value>, headers: map<string, string>, js: string): set<Write>
  {
    var own := FieldLastWrites(task.(js := js), at, HEADER_PREFIX, HeaderObject(headers), headers.Keys);
    if own != {} then own else LastDocumentWrites(task, at, items)
  }

  /** No two different writes can come last in one place. */
  ghost predicate OneLastWrite(task: Task, items: map<string, Value>) {
    forall at: Location, v, w |
      v in LastDocumentWrites(task, at, items) && w in LastDocumentWrites(task, at, items) :: v == w
  }

  ghost predicate OneLastFullWrite(task: Task, items: map<string, Value>, headers: map<string, string>, js: string) {
    forall at: Location, v, w |
      v in LastFullWrites(task, at, items, headers, js) && w in LastFullWrites(task, at, items, headers, js) :: v == w
  }

  lemma FullWalkEnds(task: Task, at: Location, items: map<string, Value>, headers: map<string, string>, js: string,
                     ws: seq<Write>)
    requires IsFullWalk(task, items, headers, js, ws)
    ensures IsLastOf(LastFullWrites(task, at, items, headers, js), ws, at)
  {
    var a, b :| IsFieldWalk(task, "", Obj(items), items.Keys, a)
                && IsFieldWalk(task.(js := js), HEADER_PREFIX, HeaderObject(headers), headers.Keys, b)
                && ws == a + b;
    var v := HeaderObject(headers);
    hide IsFieldWalk, IsLastOf, FieldLastWrites;
    FieldWalkEnds(task, at, "", Obj(items), items.Keys, a);
    FieldWalkEnds(task.(js := js), at, HEADER_PREFIX, v, headers.Keys, b);
    LastOfBoth(LastDocumentWrites(task, at, items), a,
               FieldLastWrites(task.(js := js), at, HEADER_PREFIX, v, headers.Keys), b, at);
  }

  lemma FullLastIsReached(task: Task, at: Location, items: map<string, Value>, headers: map<string, string>,
                          js: string, w: Write)
    returns (ws: seq<Write>)
    requires w in LastFullWrites(task, at, items, headers, js)
    ensures IsFullWalk(task, items, headers, js, ws) && LastTo(ws, at) == Some(w)
  {
    hide IsFieldWalk, FieldLastWrites, LastTo;
    var v := HeaderObject(headers);
    var a, b;
    if FieldLastWrites(task.(js := js), at, HEADER_PREFIX, v, headers.Keys) != {} {
      a := SomeFieldWalk(task, "", Obj(items), items.Keys);
      b := FieldLastIsReached(task.(js := js), at, HEADER_PREFIX, v, headers.Keys, w);
    } else {
      a := FieldLastIsReached(task, at, "", Obj(items), items.Keys, w);
      b := SomeFieldWalk(task.(js := js), HEADER_PREFIX, v, headers.Keys);
      FieldWalkEnds(task.(js := js), at, HEADER_PREFIX, v, headers.Keys, b);
    }
    ws := a + b;
    LastToConcat(a, b, at);
  }

  lemma FullOutcomeWith(task: Task, items: map<string, Value>, headers: map<string, string>, js: string, at: Location,
                        w: Write)
    returns (e: EntityState)
    requires PanicFree(Obj(items)) && w in LastFullWrites(task, at, items, headers, js)
    ensures IsOutcomeWithHeaders(task, items, headers, js, e) && Holds(e, w) && LocationOf(w) == at
  {
    hide IsFullWalk, LastFullWrites, PanicFree;
    var ws := FullLastIsReached(task, at, items, headers, js, w);
    e := PutAll(EMPTY_ENTITY, ws);
    LastStays(EMPTY_ENTITY, ws, at);
  }

  lemma SameLast(task: Task, at: Location, items: map<string, Value>, headers: map<string, string>, js: string,
                 v: seq<Write>, w: seq<Write>)
    requires OneLastFullWrite(task, items, headers, js)
    requires IsFullWalk(task, items, headers, js, v) && IsFullWalk(task, items, headers, js, w)
    ensures LastTo(v, at) == LastTo(w, at)
  {
    hide IsFullWalk, LastFullWrites, LastTo;
    FullWalkEnds(task, at, items, headers, js, v);
    FullWalkEnds(task, at, items, headers, js, w);
  }

  lemma OneLastOneOutcome(task: Task, items: map<string, Value>, headers: map<string, string>, js: string,
                          b: EntityState, c: EntityState)
    requires OneLastFullWrite(task, items, headers, js)
    requires IsOutcomeWithHeaders(task, items, headers, js, b) && IsOutcomeWithHeaders(task, items, headers, js, c)
    ensures b == c
  {
    hide IsFullWalk, OneLastFullWrite, LastTo, PutAll;
    var v :| IsFullWalk(task, items, headers, js, v) && b == PutAll(EMPTY_ENTITY, v);
    var w :| IsFullWalk(task, items, headers, js, w) && c == PutAll(EMPTY_ENTITY, w);
    forall at: Location ensures LastTo(v, at) == LastTo(w, at) {
      SameLast(task, at, items, headers, js, v, w);
    }
    SameLastSameEntity(EMPTY_ENTITY, v, w);
  }

  lemma TwoLastTwoOutcomes(task: Task, items: map<string, Value>, headers: map<string, string>, js: string)
    returns (b: EntityState, c: EntityState)
    requires PanicFree(Obj(items)) && !OneLastFullWrite(task, items, headers, js)
    ensures IsOutcomeWithHeaders(task, items, headers, js, b) && IsOutcomeWithHeaders(task, items, headers, js, c)
            && b != c
  {
    hide LastFullWrites, IsOutcomeWithHeaders, PanicFree;
    var at, v, w :| v in LastFullWrites(task, at, items, headers, js)
                    && w in LastFullWrites(task, at, items, headers, js) && v != w;
    b := FullOutcomeWith(task, items, headers, js, at, v);
    c := FullOutcomeWith(task, items, headers, js, at, w);
  }

  /**
   * All orders of walking a document and its headers end in one entity exactly if no place has two
   * different writes that can come last, or if the document cannot be encoded at all.
   */
  lemma OneOutcomeWithHeadersIff(task: Task, items: map<string, Value>, headers: map<string, string>, js: string)
    ensures (forall b, c | IsOutcomeWithHeaders(task, items, headers, js, b)
             && IsOutcomeWithHeaders(task, items, headers, js, c) :: b == c)
            <==> OneLastFullWrite(task, items, headers, js) || !PanicFree(Obj(items))
  {
    hide OneLastFullWrite, PanicFree, IsFullWalk;
    if !PanicFree(Obj(items)) {
      assert forall e :: !IsOutcomeWithHeaders(task, items, headers, js, e);
    } else if OneLastFullWrite(task, items, headers, js) {
      forall b, c | IsOutcomeWithHeaders(task, items, headers, js, b)
          && IsOutcomeWithHeaders(task, items, headers, js, c)
        ensures b == c
      {
        OneLastOneOutcome(task, items, headers, js, b, c);
      }
    } else {
      var b, c := TwoLastTwoOutcomes(task, items, headers, js);
    }
  }

  /** Without headers the two notions of an outcome are one. */
  lemma NoHeaders(task: Task, items: map<string, Value>, e: EntityState)
    ensures IsOutcome(task, items, e) <==> IsOutcomeWithHeaders(task, items, map[], task.js, e)
  {
    hide PanicFree;
    var v := HeaderObject(map[]);
    assert IsFieldWalk(task, HEADER_PREFIX, v, {}, []);
    if ws :| FieldsLead(task, "", Obj(items), items.Keys, EMPTY_ENTITY, ws, e) {
      assert ws + [] == ws;
      assert IsFullWalk(task, items, map[], task.js, ws + []);
    }
    if ws :| IsFullWalk(task, items, map[], task.js, ws) && e == PutAll(EMPTY_ENTITY, ws) {
      var a, b :| IsFieldWalk(task, "", Obj(items), items.Keys, a) && IsFieldWalk(task, HEADER_PREFIX, v, {}, b)
          && ws == a + b;
      assert ws == a;
      assert FieldsLead(task, "", Obj(items), items.Keys, EMPTY_ENTITY, a, e);
    }
  }

  lemma NoHeadersLast(task: Task, items: map<string, Value>)
    ensures OneLastWrite(task, items) <==> OneLastFullWrite(task, items, map[], task.js)
  {
    forall at: Location ensures LastFullWrites(task, at, items, map[], task.js) == LastDocumentWrites(task, at, items) {
      assert FieldLastWrites(task, at, HEADER_PREFIX, HeaderObject(map[]), {}) == {};
    }
    hide LastFullWrites, LastDocumentWrites;
  }

  /** The same for documents without headers. */
  lemma OneOutcomeIff(task: Task, items: map<string, Value>)
    ensures (forall b, c | IsOutcome(task, items, b) && IsOutcome(task, items, c) :: b == c)
            <==> OneLastWrite(task, items) || !PanicFree(Obj(items))
  {
    hide *;
    OneOutcomeWithHeadersIff(task, items, map[], task.js);
    NoHeadersLast(task, items);
    forall e ensures IsOutcome(task, items, e) <==> IsOutcomeWithHeaders(task, items, map[], task.js, e) {
      NoHeaders(task, items, e);
    }
  }

  /** A document that cannot be encoded has no outcome, and every other one has some. */
  lemma SomeOutcomeIff(task: Task, items: map<string, Value>)
    ensures (exists e :: IsOutcome(task, items, e)) <==> PanicFree(Obj(items))
  {
    hide PanicFree;
    var ws := SomeFieldWalk(task, "", Obj(items), items.Keys);
    assert FieldsLead(task, "", Obj(items), items.Keys, EMPTY_ENTITY, ws, PutAll(EMPTY_ENTITY, ws));
    assert PanicFree(Obj(items)) ==> IsOutcome(task, items, PutAll(EMPTY_ENTITY, ws));
  }

  /** Every outcome is one way of making the writes of all leaves. */
  lemma OutcomeApplies(task: Task, items: map<string, Value>, e: EntityState)
    requires IsOutcome(task, items, e)
    ensures Applied(EMPTY_ENTITY, WritesOf(task, DocumentLeaves(items)), e)
  {
    var ws :| FieldsLead(task, "", Obj(items), items.Keys, EMPTY_ENTITY, ws, e);
    WalkApplies(task, "", Obj(items), items.Keys, EMPTY_ENTITY, ws, e);
  }

  /**
   * With dots in names the order can matter: the document `{"a.b": null, "a": {"b": true}}` has
   * two leaves for one address, and either can come last.
   */
  lemma DotsLetOrderMatter(task: Task, items: map<string, Value>) returns (e1: EntityState, e2: EntityState)
    requires task.columns == map[]
    requires items == map["a.b" := Null, "a" := Obj(map["b" := Bool(true)])]
    ensures IsOutcome(task, items, e1) && Holds(e1, SetProperty("ns0:a.b", Null))
    ensures IsOutcome(task, items, e2) && Holds(e2, SetProperty("ns0:a.b", Bool(true)))
  {
    var at, inner := PropertyLocation("ns0:a.b"), Obj(map["b" := Bool(true)]);
    var w1, w2 := SetProperty("ns0:a.b", Null), SetProperty("ns0:a.b", Bool(true));
    assert PanicFree(inner) && PanicFree(Obj(items)) by {
      assert inner.fields.Keys == {"b"} && items.Keys == {"a.b", "a"};
    }
    assert "ns0:" + ("" + "a.b") == "ns0:a.b" && "ns0:" + ("" + "a" + "." + "b") == "ns0:a.b";
    assert w1 in LastWrites(task, at, "", "a.b", items["a.b"]);
    assert w2 in LastWrites(task, at, "" + "a" + ".", "b", inner.fields["b"]);
    assert w2 in FieldLastWrites(task, at, "" + "a" + ".", inner, inner.fields.Keys);
    assert w2 in LastWrites(task, at, "", "a", items["a"]);
    e1 := OutcomeWith(task, items, at, w1);
    e2 := OutcomeWith(task, items, at, w2);
  }

  lemma OutcomeWith(task: Task, items: map<string, Value>, at: Location, w: Write) returns (e: EntityState)
    requires PanicFree(Obj(items)) && w in LastDocumentWrites(task, at, items)
    ensures IsOutcome(task, items, e) && Holds(e, w)
  {
    hide PanicFree;
    var ws := FieldLastIsReached(task, at, "", Obj(items), items.Keys, w);
    e := PutAll(EMPTY_ENTITY, ws);
    assert FieldsLead(task, "", Obj(items), items.Keys, EMPTY_ENTITY, ws, e);
    LastStays(EMPTY_ENTITY, ws, at);
  }

  /** A header that is mapped as the id can set it last, whatever the document. */
  lemma HeaderSetsId(task: Task, items: map<string, Value>, headers: map<string, string>, js: string, name: string)
    returns (e: EntityState)
    requires PanicFree(Obj(items)) && name in headers && name in task.columns
    requires task.columns[name].isIdField && !task.columns[name].ignoreField
    ensures IsOutcomeWithHeaders(task, items, headers, js, e) && e.id == MappedId(task.(js := js), task.columns[name])
  {
    hide PanicFree;
    var t, v, w := task.(js := js), HeaderObject(headers), SetId(MappedId(task.(js := js), task.columns[name]));
    var leaf := Leaf(HEADER_PREFIX + name, name, v.fields[name]);
    assert LeafWrites(t, leaf)[0] == w;
    assert w in LastWrites(t, IdLocation, HEADER_PREFIX, name, v.fields[name]);
    assert w in FieldLastWrites(t, IdLocation, HEADER_PREFIX, v, headers.Keys);
    e := FullOutcomeWith(task, items, headers, js, IdLocation, w);
  }

  /**
   * With headers the order can matter where it does not without: two headers that are mapped to
   * different ids, on a document without fields.
   */
  lemma HeadersLetOrderMatter(task: Task, headers: map<string, string>, js: string, a: string, b: string)
    returns (e1: EntityState, e2: EntityState)
    requires a in headers && a in task.columns && task.columns[a].isIdField && !task.columns[a].ignoreField
    requires b in headers && b in task.columns && task.columns[b].isIdField && !task.columns[b].ignoreField
    requires MappedId(task.(js := js), task.columns[a]) != MappedId(task.(js := js), task.columns[b])
    ensures OneLastWrite(task, map[])
    ensures IsOutcomeWithHeaders(task, map[], headers, js, e1) && IsOutcomeWithHeaders(task, map[], headers, js, e2)
    ensures e1.id != e2.id
  {
    e1 := HeaderSetsId(task, map[], headers, js, a);
    e2 := HeaderSetsId(task, map[], headers, js, b);
  }
}
