/**
 * What the encoder writes: an entity as a value, the writes that a leaf of the document calls for,
 * and the orders in which a document can be walked.
 */
module Writes {
  import opened Decimal
  import opened Options
  import opened Document

  datatype FieldMapping = FieldMapping(
    path: string, fieldName: string, propertyName: string, isIdField: bool, isDeletedField: bool,
    isReference: bool, referenceTemplate: string, ignoreField: bool)
  {
    /** The property a mapped field is written to. */
    function Target(): string {
      "ns0:" + if propertyName != "" then propertyName else fieldName
    }
  }

  /** What a path query finds: whether there is anything, its value, and its reading as a boolean. */
  datatype QueryResult = QueryResult(found: bool, value: Value, flag: bool)

  /** The path queries and the formatting that the encoder takes from its libraries. */
  datatype Library = Library(get: (string, string) -> QueryResult, format: (string, Value) -> string)

  datatype Config = Config(baseNameSpace: string, entityIdConstructor: string, fieldMappings: seq<FieldMapping>)

  type Columns = map<string, FieldMapping>

  /** An entity as a value. */
  datatype EntityState = EntityState(id: string, isDeleted: bool, references: map<string, string>,
                                     properties: map<string, Value>)

  const EMPTY_ENTITY := EntityState("", false, map[], map[])

  datatype Write =
    | SetId(id: string) | SetDeleted(flag: bool)
    | SetReference(name: string, target: string) | SetProperty(name: string, value: Value)

  /** The part of an entity that a write goes to. */
  datatype Location = IdLocation | DeletedLocation | ReferenceLocation(name: string) | PropertyLocation(name: string)

  function LocationOf(w: Write): Location {
    match w
    case SetId(_) => IdLocation
    case SetDeleted(_) => DeletedLocation
    case SetReference(name, _) => ReferenceLocation(name)
    case SetProperty(name, _) => PropertyLocation(name)
  }

  /** The entity already holds what the write would put there. */
  predicate Holds(e: EntityState, w: Write) {
    match w
    case SetId(id) => e.id == id
    case SetDeleted(flag) => e.isDeleted == flag
    case SetReference(name, target) => name in e.references && e.references[name] == target
    case SetProperty(name, value) => name in e.properties && e.properties[name] == value
  }

  /** Two entities agree in one location. */
  predicate Agree(a: EntityState, b: EntityState, at: Location) {
    match at
    case IdLocation => a.id == b.id
    case DeletedLocation => a.isDeleted == b.isDeleted
    case ReferenceLocation(name) =>
      (name in a.references <==> name in b.references)
        && (name in a.references ==> a.references[name] == b.references[name])
    case PropertyLocation(name) =>
      (name in a.properties <==> name in b.properties)
        && (name in a.properties ==> a.properties[name] == b.properties[name])
  }

  ghost predicate Written(ws: set<Write>, e: EntityState, at: Location) {
    exists w | w in ws :: LocationOf(w) == at && Holds(e, w)
  }

  ghost predicate Untouched(ws: set<Write>, at: Location) {
    forall w | w in ws :: LocationOf(w) != at
  }

  /**
   * `after` comes from `before` by the writes `ws` in some order: a location that is written
   * holds one of the values written there, and every other location is as it was.
   */
  ghost predicate Applied(before: EntityState, ws: set<Write>, after: EntityState) {
    forall at: Location :: Written(ws, after, at) || (Untouched(ws, at) && Agree(before, after, at))
  }

  /** No two writes disagree. */
  ghost predicate Coherent(ws: set<Write>) {
    forall v, w | v in ws && w in ws && LocationOf(v) == LocationOf(w) :: v == w
  }

  lemma AgreeKeeps(b: EntityState, c: EntityState, ws: set<Write>, at: Location)
    requires Agree(b, c, at) && Written(ws, b, at)
    ensures Written(ws, c, at)
  {
    var w :| w in ws && LocationOf(w) == at && Holds(b, w);
    assert Holds(c, w);
  }

  lemma AppliedThenApplied(a: EntityState, v: set<Write>, b: EntityState, w: set<Write>, c: EntityState)
    requires Applied(a, v, b) && Applied(b, w, c)
    ensures Applied(a, v + w, c)
  {
    forall at: Location ensures Written(v + w, c, at) || (Untouched(v + w, at) && Agree(a, c, at)) {
      if Written(w, c, at) {
        var x :| x in w && LocationOf(x) == at && Holds(c, x);
        assert x in v + w;
      } else {
        assert Untouched(w, at) && Agree(b, c, at);
        if Written(v, b, at) {
          AgreeKeeps(b, c, v, at);
          var x :| x in v && LocationOf(x) == at && Holds(c, x);
          assert x in v + w;
        }
      }
    }
  }

  lemma HoldsDecides(b: EntityState, c: EntityState, w: Write)
    requires Holds(b, w) && Holds(c, w)
    ensures Agree(b, c, LocationOf(w))
  {
  }

  lemma AgreeEverywhere(b: EntityState, c: EntityState)
    requires forall at: Location :: Agree(b, c, at)
    ensures b == c
  {
    assert Agree(b, c, IdLocation) && Agree(b, c, DeletedLocation);
    forall name: string
      ensures name in b.references <==> name in c.references
      ensures name in b.properties <==> name in c.properties
      ensures name in b.references ==> b.references[name] == c.references[name]
      ensures name in b.properties ==> b.properties[name] == c.properties[name]
    {
      assert Agree(b, c, ReferenceLocation(name)) && Agree(b, c, PropertyLocation(name));
    }
    assert b.references == c.references && b.properties == c.properties;
  }

  /** Writes that do not disagree lead to one entity, in whatever order they are made. */
  lemma CoherentWritesCommute(a: EntityState, ws: set<Write>, b: EntityState, c: EntityState)
    requires Coherent(ws) && Applied(a, ws, b) && Applied(a, ws, c)
    ensures b == c
  {
    forall at: Location ensures Agree(b, c, at) {
      if Written(ws, b, at) {
        var v :| v in ws && LocationOf(v) == at && Holds(b, v);
        assert Written(ws, c, at);
        var w :| w in ws && LocationOf(w) == at && Holds(c, w);
        HoldsDecides(b, c, v);
      } else {
        assert Untouched(ws, at) && Agree(a, b, at);
        assert Untouched(ws, at) ==> !Written(ws, c, at);
      }
    }
    AgreeEverywhere(b, c);
  }

  /** A single write. */
  lemma OneWrite(a: EntityState, w: Write, b: EntityState)
    requires Holds(b, w) && forall at: Location | at != LocationOf(w) :: Agree(a, b, at)
    ensures Applied(a, {w}, b)
  {
    assert Written({w}, b, LocationOf(w));
  }

  /** A leaf of the document: its dotted address, the last segment of it, and its value. */
  datatype Leaf = Leaf(address: string, name: string, value: Value)

  /** The encoder together with the document and the message key it is working on. */
  datatype Task = Task(config: Config, columns: Columns, lib: Library, js: string, key: string)

  /** What one leaf does to the entity, in the order of the code. */
  function LeafWrites(task: Task, leaf: Leaf): (ws: seq<Write>) {
    var raw := SetProperty("ns0:" + leaf.address, leaf.value);
    if leaf.name !in task.columns then [raw] else
    var m := task.columns[leaf.name];
    var result := task.lib.get(task.js, m.path);
    if m.ignoreField then []
    else if m.isIdField then
      if m.path == "kafkaKey" then [SetId(EntityId(task, Str(task.key)))]
          else [SetId(EntityId(task, result.value)), raw]
    else if m.isDeletedField then [SetDeleted(result.flag)]
    else if m.isReference && result.found then
      [SetReference(m.Target(), task.lib.format(m.referenceTemplate, result.value)), raw]
    else [SetProperty(m.Target(), result.value)]
  }

  /** The id that a mapping gives. */
  function MappedId(task: Task, m: FieldMapping): string {
    EntityId(task, if m.path == "kafkaKey" then Str(task.key) else task.lib.get(task.js, m.path).value)
  }

  function EntityId(task: Task, v: Value): string {
    task.config.baseNameSpace + task.lib.format(task.config.entityIdConstructor, v)
  }

  /** The leaves at and below a field. */
  ghost function Leaves(prefix: string, k: string, v: Value): set<Leaf>
    decreases v, 1
  {
    match v
    case Obj(fields) => FieldLeaves(prefix + k + ".", v, fields.Keys)
    case Arr(items) =>
      SliceLeaves(prefix, k, items) + ItemLeaves(prefix + k, items, |items|)
    case _ => {Leaf(prefix + k, k, v)}
  }

  /** The leaves under some fields of an object. */
  ghost function FieldLeaves(prefix: string, v: Value, names: set<string>): set<Leaf>
    requires v.Obj? && names <= v.fields.Keys
    decreases v, 0
  {
    set k, l | k in names && l in Leaves(prefix, k, v.fields[k]) :: l
  }

  lemma FieldLeavesStep(prefix: string, v: Value, names: set<string>, k: string)
    requires v.Obj? && names <= v.fields.Keys && k in v.fields
    ensures FieldLeaves(prefix, v, names + {k}) == FieldLeaves(prefix, v, names) + Leaves(prefix, k, v.fields[k])
  {
  }

  /** The array itself, where it is stored as one value. */
  ghost function SliceLeaves(prefix: string, k: string, items: seq<Value>): set<Leaf> {
    if ArrayLeaf(items).Some? then {Leaf(prefix + k, k, ArrayLeaf(items).value)} else {}
  }

  lemma WritesOfLeaf(task: Task, leaf: Leaf)
    ensures WritesOf(task, {leaf}) == Among(LeafWrites(task, leaf))
  {
  }

  /** The leaves under the objects among the first `n` items of an array. */
  ghost function ItemLeaves(address: string, items: seq<Value>, n: nat): set<Leaf>
    requires n <= |items|
    decreases Arr(items), 0
  {
    set i, l | 0 <= i < n && items[i].Obj?
               && l in FieldLeaves(address + "." + Itoa(i) + ".", items[i], items[i].fields.Keys) :: l
  }

  lemma ItemLeavesStep(address: string, items: seq<Value>, i: nat)
    requires i < |items|
    ensures ItemLeaves(address, items, i + 1) == ItemLeaves(address, items, i)
            + if items[i].Obj? then FieldLeaves(address + "." + Itoa(i) + ".", items[i], items[i].fields.Keys) else {}
  {
  }

  ghost function WritesOf(task: Task, leaves: set<Leaf>): set<Write> {
    set l, w | l in leaves && w in LeafWrites(task, l) :: w
  }

  lemma WritesOfUnion(task: Task, a: set<Leaf>, b: set<Leaf>)
    ensures WritesOf(task, a + b) == WritesOf(task, a) + WritesOf(task, b)
  {
  }

  /** The leaves of a whole document. */
  ghost function DocumentLeaves(items: map<string, Value>): set<Leaf> {
    FieldLeaves("", Obj(items), items.Keys)
  }

  function Put(e: EntityState, w: Write): EntityState {
    match w
    case SetId(id) => e.(id := id)
    case SetDeleted(flag) => e.(isDeleted := flag)
    case SetReference(name, target) => e.(references := e.references[name := target])
    case SetProperty(name, value) => e.(properties := e.properties[name := value])
  }

  function PutAll(e: EntityState, ws: seq<Write>): EntityState {
    if ws == [] then e else Put(PutAll(e, ws[..|ws| - 1]), ws[|ws| - 1])
  }

  function Among(ws: seq<Write>): set<Write> {
    set w | w in ws
  }

  /** Making the writes one after the other is one way to apply them. */
  lemma {:induction false} PutAllIsApplied(e: EntityState, ws: seq<Write>)
    ensures Applied(e, Among(ws), PutAll(e, ws))
  {
    if ws != [] {
      var init, last := ws[..|ws| - 1], ws[|ws| - 1];
      PutAllIsApplied(e, init);
      OneWrite(PutAll(e, init), last, PutAll(e, ws));
      AppliedThenApplied(e, Among(init), PutAll(e, init), {last}, PutAll(e, ws));
      assert ws == init + [last] && Among(ws) == Among(init) + {last};
    }
  }

  lemma {:induction false} PutAllConcat(e: EntityState, a: seq<Write>, b: seq<Write>)
    ensures PutAll(e, a + b) == PutAll(PutAll(e, a), b)
  {
    if b == [] {
      assert a + b == a;
    } else {
      var init := b[..|b| - 1];
      PutAllConcat(e, a, init);
      assert (a + b)[..|a + b| - 1] == a + init;
    }
  }

  lemma PutFew(e: EntityState, v: Write, w: Write)
    ensures PutAll(e, [v]) == Put(e, v) && PutAll(e, [v, w]) == Put(Put(e, v), w)
  {
    assert [v][..0] == [] && [v, w][..1] == [v];
  }

  /** What is written for the array itself. */
  function SliceWrites(task: Task, prefix: string, k: string, items: seq<Value>): seq<Write> {
    if ArrayLeaf(items).Some? then LeafWrites(task, Leaf(prefix + k, k, ArrayLeaf(items).value)) else []
  }

  /**
   * `ws` are the writes, in order, of one way of walking a field: the fields of an object come in
   * any order, one whole field after the other, and the items of an array in the order of the
   * array, with the array itself after them.
   */
  ghost predicate IsWalk(task: Task, prefix: string, k: string, v: Value, ws: seq<Write>)
    decreases v, 1, 0
  {
    match v
    case Obj(fields) => IsFieldWalk(task, prefix + k + ".", v, fields.Keys, ws)
    case Arr(items) => exists a ::
      IsItemWalk(task, prefix + k, items, |items|, a) && ws == a + SliceWrites(task, prefix, k, items)
    case _ => ws == LeafWrites(task, Leaf(prefix + k, k, v))
  }

  /** A walk over some fields of an object; `k` is the one that comes last. */
  ghost predicate IsFieldWalk(task: Task, prefix: string, v: Value, names: set<string>, ws: seq<Write>)
    requires v.Obj? && names <= v.fields.Keys
    decreases v, 0, |names|
  {
    if names == {} then ws == [] else
    exists k, a, b :: k in names && IsFieldWalk(task, prefix, v, names - {k}, a)
      && IsWalk(task, prefix, k, v.fields[k], b) && ws == a + b
  }

  /** A walk over the objects among the first `n` items of an array. */
  ghost predicate IsItemWalk(task: Task, address: string, items: seq<Value>, n: nat, ws: seq<Write>)
    requires n <= |items|
    decreases Arr(items), 0, n
  {
    if n == 0 then ws == [] else
    var item := items[n - 1];
    if item.Obj? then
      exists a, b :: IsItemWalk(task, address, items, n - 1, a)
                     && IsFieldWalk(task, address + "." + Itoa(n - 1) + ".", item, item.fields.Keys, b) && ws == a + b
    else IsItemWalk(task, address, items, n - 1, ws)
  }

  /** From `before`, a walk with the writes `ws` over some fields leads to `after`. */
  ghost predicate FieldsLead(task: Task, prefix: string, v: Value, names: set<string>, before: EntityState,
                             ws: seq<Write>, after: EntityState)
    requires v.Obj? && names <= v.fields.Keys
  {
    IsFieldWalk(task, prefix, v, names, ws) && after == PutAll(before, ws)
  }

  /** The same for the items of an array. */
  ghost predicate ItemsLead(task: Task, address: string, items: seq<Value>, n: nat, before: EntityState,
                            ws: seq<Write>, after: EntityState)
    requires n <= |items|
  {
    IsItemWalk(task, address, items, n, ws) && after == PutAll(before, ws)
  }

  /** The same for one field. */
  ghost predicate Leads(task: Task, prefix: string, k: string, v: Value, before: EntityState, ws: seq<Write>,
                        after: EntityState)
  {
    IsWalk(task, prefix, k, v, ws) && after == PutAll(before, ws)
  }

  lemma FieldsLeadOn(task: Task, prefix: string, v: Value, names: set<string>, k: string, before: EntityState,
                     a: seq<Write>, between: EntityState, b: seq<Write>, after: EntityState)
    requires v.Obj? && names <= v.fields.Keys && k in v.fields && k !in names
    requires FieldsLead(task, prefix, v, names, before, a, between)
             && Leads(task, prefix, k, v.fields[k], between, b, after)
    ensures FieldsLead(task, prefix, v, names + {k}, before, a + b, after)
  {
    PutAllConcat(before, a, b);
    assert names + {k} - {k} == names;
  }

  lemma ItemsLeadOn(task: Task, address: string, items: seq<Value>, n: nat, before: EntityState,
                    a: seq<Write>, between: EntityState, b: seq<Write>, after: EntityState)
    requires n < |items| && items[n].Obj? && ItemsLead(task, address, items, n, before, a, between)
    requires FieldsLead(task, address + "." + Itoa(n) + ".", items[n], items[n].fields.Keys, between, b, after)
    ensures ItemsLead(task, address, items, n + 1, before, a + b, after)
  {
    PutAllConcat(before, a, b);
  }

  lemma SplitFieldWalk(task: Task, prefix: string, v: Value, names: set<string>, ws: seq<Write>)
    returns (k: string, a: seq<Write>, b: seq<Write>)
    requires v.Obj? && names <= v.fields.Keys && names != {} && IsFieldWalk(task, prefix, v, names, ws)
    ensures k in names && IsFieldWalk(task, prefix, v, names - {k}, a) && IsWalk(task, prefix, k, v.fields[k], b)
            && ws == a + b
  {
    hide IsWalk;
    k, a, b :| k in names && IsFieldWalk(task, prefix, v, names - {k}, a) && IsWalk(task, prefix, k, v.fields[k], b)
      && ws == a + b;
  }

  lemma SplitItemWalk(task: Task, address: string, items: seq<Value>, n: nat, ws: seq<Write>)
    returns (a: seq<Write>, b: seq<Write>)
    requires 0 < n <= |items| && items[n - 1].Obj? && IsItemWalk(task, address, items, n, ws)
    ensures IsItemWalk(task, address, items, n - 1, a) && ws == a + b
    ensures IsFieldWalk(task, address + "." + Itoa(n - 1) + ".", items[n - 1], items[n - 1].fields.Keys, b)
  {
    hide IsFieldWalk, Itoa;
    a, b :| IsItemWalk(task, address, items, n - 1, a)
            && IsFieldWalk(task, address + "." + Itoa(n - 1) + ".", items[n - 1], items[n - 1].fields.Keys, b)
              && ws == a + b;
  }

  lemma AmongConcat(a: seq<Write>, b: seq<Write>)
    ensures Among(a + b) == Among(a) + Among(b)
  {
  }

  /** Every walk makes the writes of all leaves, and no others. */
  lemma {:induction false} WalkWrites(task: Task, prefix: string, k: string, v: Value, ws: seq<Write>)
    requires IsWalk(task, prefix, k, v, ws)
    ensures Among(ws) == WritesOf(task, Leaves(prefix, k, v))
    decreases v, 1, 0
  {
    match v
    case Obj(fields) => FieldWalkWrites(task, prefix + k + ".", v, fields.Keys, ws);
    case Arr(items) =>
      var a :| IsItemWalk(task, prefix + k, items, |items|, a) && ws == a + SliceWrites(task, prefix, k, items);
      ItemWalkWrites(task, prefix + k, items, |items|, a);
      hide IsItemWalk, LeafWrites;
      AmongConcat(a, SliceWrites(task, prefix, k, items));
      WritesOfUnion(task, SliceLeaves(prefix, k, items), ItemLeaves(prefix + k, items, |items|));
      if ArrayLeaf(items).Some? {
        WritesOfLeaf(task, Leaf(prefix + k, k, ArrayLeaf(items).value));
      }
    case _ => WritesOfLeaf(task, Leaf(prefix + k, k, v));
  }

  lemma {:induction false} FieldWalkWrites(task: Task, prefix: string, v: Value, names: set<string>, ws: seq<Write>)
    requires v.Obj? && names <= v.fields.Keys && IsFieldWalk(task, prefix, v, names, ws)
    ensures Among(ws) == WritesOf(task, FieldLeaves(prefix, v, names))
    decreases v, 0, |names|
  {
    if names != {} {
      var k, a, b := SplitFieldWalk(task, prefix, v, names, ws);
      hide *;
      FieldWalkWrites(task, prefix, v, names - {k}, a);
      WalkWrites(task, prefix, k, v.fields[k], b);
      AmongConcat(a, b);
      FieldLeavesStep(prefix, v, names - {k}, k);
      assert names - {k} + {k} == names;
      WritesOfUnion(task, FieldLeaves(prefix, v, names - {k}), Leaves(prefix, k, v.fields[k]));
    }
  }

  lemma {:induction false} ItemWalkWrites(task: Task, address: string, items: seq<Value>, n: nat, ws: seq<Write>)
    requires n <= |items| && IsItemWalk(task, address, items, n, ws)
    ensures Among(ws) == WritesOf(task, ItemLeaves(address, items, n))
    decreases Arr(items), 0, n
  {
    if n > 0 {
      ItemLeavesStep(address, items, n - 1);
      var item := items[n - 1];
      if item.Obj? {
        var inner := address + "." + Itoa(n - 1) + ".";
        var a, b := SplitItemWalk(task, address, items, n, ws);
        hide *;
        ItemWalkWrites(task, address, items, n - 1, a);
        FieldWalkWrites(task, inner, item, item.fields.Keys, b);
        AmongConcat(a, b);
        WritesOfUnion(task, ItemLeaves(address, items, n - 1), FieldLeaves(inner, item, item.fields.Keys));
      } else {
        ItemWalkWrites(task, address, items, n - 1, ws);
        assert ItemLeaves(address, items, n) == ItemLeaves(address, items, n - 1);
      }
    }
  }

  /** So every walk is one way of applying these writes. */
  lemma WalkApplies(task: Task, prefix: string, v: Value, names: set<string>, before: EntityState, ws: seq<Write>,
                    after: EntityState)
    requires v.Obj? && names <= v.fields.Keys && FieldsLead(task, prefix, v, names, before, ws, after)
    ensures Applied(before, WritesOf(task, FieldLeaves(prefix, v, names)), after)
  {
    FieldWalkWrites(task, prefix, v, names, ws);
    PutAllIsApplied(before, ws);
  }
}
