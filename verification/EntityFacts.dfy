/** What the encoder's writes amount to for the document as a whole. */
module EntityFacts {
  import opened Decimal
  import opened Options
  import opened Document
  import opened Writes
  import opened Encoder

  lemma DottedStep(prefix: string, k: string, rest: seq<string>)
    requires rest != []
    ensures prefix + Dotted([k] + rest) == prefix + k + "." + Dotted(rest)
  {
    assert ([k] + rest)[1..] == rest;
  }

  function Last(path: seq<string>): string
    requires path != []
  {
    path[|path| - 1]
  }

  /** The leaf at the end of a path that begins with the field `k` under `prefix`. */
  function LeafUnder(prefix: string, k: string, rest: seq<string>, v: Value): Leaf {
    Leaf(prefix + Dotted([k] + rest), Last([k] + rest), v)
  }

  /** Every leaf that is collected lies at the end of a path. */
  lemma {:induction false} LeafHasPath(prefix: string, k: string, v: Value, l: Leaf) returns (rest: seq<string>)
    requires l in Leaves(prefix, k, v)
    ensures LeafAt(v, rest) == Some(l.value) && l == LeafUnder(prefix, k, rest, l.value)
    decreases v
  {
    match v
    case Obj(fields) =>
      rest := FieldLeafHasPath(prefix + k + ".", v, l);
      DottedStep(prefix, k, rest);
    case Arr(items) =>
      if l in SliceLeaves(prefix, k, items) {
        rest := [];
      } else {
        var i :| 0 <= i < |items| && items[i].Obj?
                 && l in FieldLeaves(prefix + k + "." + Itoa(i) + ".", items[i], items[i].fields.Keys);
        var inner := FieldLeafHasPath(prefix + k + "." + Itoa(i) + ".", items[i], l);
        rest := [Itoa(i)] + inner;
        ArrayPath(items, i, inner);
        DottedStep(prefix + k + ".", Itoa(i), inner);
        DottedStep(prefix, k, rest);
      }
    case _ =>
      rest := [];
  }

  lemma {:induction false} FieldLeafHasPath(prefix: string, v: Value, l: Leaf) returns (path: seq<string>)
    requires v.Obj? && l in FieldLeaves(prefix, v, v.fields.Keys)
    ensures path != [] && LeafAt(v, path) == Some(l.value) && l == Leaf(prefix + Dotted(path), Last(path), l.value)
    decreases v, 0
  {
    var k :| k in v.fields && l in Leaves(prefix, k, v.fields[k]);
    var rest := LeafHasPath(prefix, k, v.fields[k], l);
    path := [k] + rest;
    assert path[1..] == rest;
  }

  lemma ArrayPath(items: seq<Value>, i: nat, inner: seq<string>)
    requires i < |items| && items[i].Obj?
    ensures LeafAt(Arr(items), [Itoa(i)] + inner) == LeafAt(items[i], inner)
  {
    var j := IndexOf(Itoa(i), |items|);
    ItoaInjective(i, j.value);
    assert ([Itoa(i)] + inner)[1..] == inner;
  }

  lemma ItemHasLeaf(prefix: string, k: string, items: seq<Value>, i: nat, inner: seq<string>, x: Value)
    requires i < |items| && items[i].Obj? && inner != []
    requires Leaf(prefix + k + "." + Itoa(i) + "." + Dotted(inner), Last(inner), x)
             in FieldLeaves(prefix + k + "." + Itoa(i) + ".", items[i], items[i].fields.Keys)
    ensures LeafUnder(prefix, k, [Itoa(i)] + inner, x) in Leaves(prefix, k, Arr(items))
  {
    hide Dotted, Itoa;
    DottedStep(prefix + k + ".", Itoa(i), inner);
    DottedStep(prefix, k, [Itoa(i)] + inner);
    assert LeafUnder(prefix, k, [Itoa(i)] + inner, x) in ItemLeaves(prefix + k, items, |items|);
  }

  /** Every path to a leaf is collected. */
  lemma {:induction false} PathHasLeaf(prefix: string, k: string, v: Value, rest: seq<string>)
    requires LeafAt(v, rest).Some?
    ensures LeafUnder(prefix, k, rest, LeafAt(v, rest).value) in Leaves(prefix, k, v)
    decreases v, 1
  {
    match v
    case Obj(fields) =>
      PathHasFieldLeaf(prefix + k + ".", v, rest);
      DottedStep(prefix, k, rest);
    case Arr(items) =>
      if rest != [] {
        var i := IndexOf(rest[0], |items|).value;
        var inner := rest[1..];
        assert rest == [Itoa(i)] + inner;
        PathHasFieldLeaf(prefix + k + "." + Itoa(i) + ".", items[i], inner);
        hide *;
        ItemHasLeaf(prefix, k, items, i, inner, LeafAt(v, rest).value);
      }
    case _ =>
  }

  lemma {:induction false} PathHasFieldLeaf(prefix: string, v: Value, path: seq<string>)
    requires v.Obj? && LeafAt(v, path).Some?
    ensures path != []
            && Leaf(prefix + Dotted(path), Last(path), LeafAt(v, path).value) in FieldLeaves(prefix, v, v.fields.Keys)
    decreases v, 0
  {
    PathHasLeaf(prefix, path[0], v.fields[path[0]], path[1..]);
    assert path == [path[0]] + path[1..];
  }

  /** The document has a leaf with this value at the end of the path. */
  predicate IsLeaf(items: map<string, Value>, path: seq<string>, v: Value) {
    path != [] && LeafAt(Obj(items), path) == Some(v)
  }

  function LeafOf(path: seq<string>, v: Value): Leaf
    requires path != []
  {
    Leaf(Dotted(path), Last(path), v)
  }

  /** The leaves that the encoder visits are the leaves of the document, by their paths. */
  lemma LeavesArePaths(items: map<string, Value>, l: Leaf)
    ensures l in DocumentLeaves(items) <==> exists path :: IsLeaf(items, path, l.value) && l == LeafOf(path, l.value)
  {
    if l in DocumentLeaves(items) {
      var path := FieldLeafHasPath("", Obj(items), l);
      assert IsLeaf(items, path, l.value) && l == LeafOf(path, l.value);
    }
    if path :| IsLeaf(items, path, l.value) && l == LeafOf(path, l.value) {
      PathHasFieldLeaf("", Obj(items), path);
      assert "" + Dotted(path) == Dotted(path);
    }
  }

  ghost function EntityWrites(task: Task, items: map<string, Value>): set<Write> {
    WritesOf(task, DocumentLeaves(items))
  }

  lemma WriteHasPath(task: Task, items: map<string, Value>, w: Write) returns (path: seq<string>, v: Value)
    requires w in EntityWrites(task, items)
    ensures IsLeaf(items, path, v) && w in LeafWrites(task, LeafOf(path, v))
  {
    var l :| l in DocumentLeaves(items) && w in LeafWrites(task, l);
    LeavesArePaths(items, l);
    v := l.value;
    path :| IsLeaf(items, path, v) && l == LeafOf(path, v);
  }

  lemma PathWrites(task: Task, items: map<string, Value>, path: seq<string>, v: Value)
    requires IsLeaf(items, path, v)
    ensures forall w | w in LeafWrites(task, LeafOf(path, v)) :: w in EntityWrites(task, items)
  {
    LeavesArePaths(items, LeafOf(path, v));
    assert LeafOf(path, v) in DocumentLeaves(items);
  }

  /** A mapping that writes to its target, as a property or as a reference. */
  predicate WritesTarget(m: FieldMapping) {
    !m.ignoreField && !m.isIdField && !m.isDeletedField
  }

  /**
   * Names without dots, one mapping at most for the id and one for the deleted flag, different
   * targets for different fields, and no target that is also the address of another leaf.
   */
  ghost predicate Tidy(task: Task, items: map<string, Value>) {
    && DotFree(Obj(items))
    && (forall f, g | f in task.columns && g in task.columns && f != g ::
          var m, n := task.columns[f], task.columns[g];
          && !(m.isIdField && n.isIdField && !m.ignoreField && !n.ignoreField)
          && !(m.isDeletedField && n.isDeletedField && !m.ignoreField && !n.ignoreField)
          && (WritesTarget(m) && WritesTarget(n) ==> m.Target() != n.Target()))
    && (forall path, v, f | IsLeaf(items, path, v) && f in task.columns && Last(path) != f ::
          WritesTarget(task.columns[f]) ==> task.columns[f].Target() != "ns0:" + Dotted(path))
  }

  function Raw(path: seq<string>, v: Value): Write
    requires path != []
  {
    SetProperty("ns0:" + Dotted(path), v)
  }

  lemma PairIsCoherent(task: Task, items: map<string, Value>, p: seq<string>, x: Value, v: Write, q: seq<string>,
                       y: Value, w: Write)
    requires Tidy(task, items) && IsLeaf(items, p, x) && IsLeaf(items, q, y)
    requires v in LeafWrites(task, LeafOf(p, x)) && w in LeafWrites(task, LeafOf(q, y))
    requires LocationOf(v) == LocationOf(w)
    ensures v == w
  {
    LeavesDoNotCollide(Obj(items), p, q);
    assert v == Raw(p, x) && w == Raw(q, y) ==>
           ("ns0:" + Dotted(p))[4..] == Dotted(p) && ("ns0:" + Dotted(q))[4..] == Dotted(q);
    hide Dotted, IsLeaf;
  }

  /** A tidy document does not contradict itself. */
  lemma TidyIsCoherent(task: Task, items: map<string, Value>)
    requires Tidy(task, items)
    ensures Coherent(EntityWrites(task, items))
  {
    forall v, w | v in EntityWrites(task, items) && w in EntityWrites(task, items) && LocationOf(v) == LocationOf(w)
      ensures v == w
    {
      var p, x := WriteHasPath(task, items, v);
      var q, y := WriteHasPath(task, items, w);
      PairIsCoherent(task, items, p, x, v, q, y, w);
    }
  }

  /** Every order of walking the maps of a tidy document ends in the same entity. */
  lemma OrderDoesNotMatter(task: Task, items: map<string, Value>, e1: EntityState, e2: EntityState)
    requires Tidy(task, items)
    requires Applied(EMPTY_ENTITY, EntityWrites(task, items), e1)
             && Applied(EMPTY_ENTITY, EntityWrites(task, items), e2)
    ensures e1 == e2
  {
    TidyIsCoherent(task, items);
    CoherentWritesCommute(EMPTY_ENTITY, EntityWrites(task, items), e1, e2);
  }

  lemma CoherentWritesHold(a: EntityState, ws: set<Write>, b: EntityState, w: Write)
    requires Coherent(ws) && Applied(a, ws, b) && w in ws
    ensures Holds(b, w)
  {
    assert !Untouched(ws, LocationOf(w));
  }

  predicate Has<T(==)>(m: map<string, T>, name: string, v: T) {
    name in m && m[name] == v
  }

  /** The name that a mapping writes to: the property name if there is one, and the field name otherwise. */
  predicate IsTarget(m: FieldMapping, name: string) {
    name == if m.propertyName == "" then "ns0:" + m.fieldName else "ns0:" + m.propertyName
  }

  /** The id is the base namespace and behind it the formatted value: the message key, or what the path leads to. */
  predicate IsIdFor(task: Task, m: FieldMapping, id: string) {
    var value := if m.path == "kafkaKey" then Str(task.key) else task.lib.get(task.js, m.path).value;
    task.config.baseNameSpace <= id
      && id[|task.config.baseNameSpace|..] == task.lib.format(task.config.entityIdConstructor, value)
  }

  lemma TargetIs(m: FieldMapping, name: string)
    ensures IsTarget(m, name) <==> name == m.Target()
  {
  }

  lemma MappedIdIs(task: Task, m: FieldMapping, id: string)
    ensures IsIdFor(task, m, id) <==> id == MappedId(task, m)
  {
    var n := |task.config.baseNameSpace|;
    assert task.config.baseNameSpace <= id ==> id == task.config.baseNameSpace + id[n..];
    assert MappedId(task, m)[n..] == MappedId(task, m)[|task.config.baseNameSpace|..];
  }

  /** What a leaf leaves in the entity, by the mapping of its last name. */
  ghost predicate Stored(task: Task, e: EntityState, path: seq<string>, v: Value)
    requires path != []
  {
    var name, raw := Last(path), "ns0:" + Dotted(path);
    if name !in task.columns then Has(e.properties, raw, v) else
    var m := task.columns[name];
    var found := task.lib.get(task.js, m.path);
    if m.ignoreField then true
    else if m.isIdField then IsIdFor(task, m, e.id) && (m.path != "kafkaKey" ==> Has(e.properties, raw, v))
    else if m.isDeletedField then e.isDeleted == found.flag
    else if m.isReference && found.found then
      && (forall target | IsTarget(m, target) ::
          Has(e.references, target, task.lib.format(m.referenceTemplate, found.value)))
      && Has(e.properties, raw, v)
    else forall target | IsTarget(m, target) :: Has(e.properties, target, found.value)
  }

  /** Every leaf of a tidy document is stored as its mapping says. */
  lemma LeavesAreStored(task: Task, items: map<string, Value>, e: EntityState, path: seq<string>, v: Value)
    requires Tidy(task, items) && Applied(EMPTY_ENTITY, EntityWrites(task, items), e)
    requires IsLeaf(items, path, v)
    ensures Stored(task, e, path, v)
  {
    TidyIsCoherent(task, items);
    PathWrites(task, items, path, v);
    hide Tidy;
    var ws := LeafWrites(task, LeafOf(path, v));
    forall i | 0 <= i < |ws| ensures Holds(e, ws[i]) {
      CoherentWritesHold(EMPTY_ENTITY, EntityWrites(task, items), e, ws[i]);
    }
    assert |ws| > 0 ==> Holds(e, ws[0]);
    assert |ws| > 1 ==> Holds(e, ws[1]);
  }

  /** The leaf at `path` gives the property `name` this value. */
  ghost predicate Gives(task: Task, path: seq<string>, v: Value, name: string, value: Value)
    requires path != []
  {
    var f, raw := Last(path), "ns0:" + Dotted(path);
    if f !in task.columns then name == raw && value == v else
    var m := task.columns[f];
    var found := task.lib.get(task.js, m.path);
    && !m.ignoreField && !(m.isDeletedField && !m.isIdField)
    && if m.isIdField then m.path != "kafkaKey" && name == raw && value == v
       else if m.isReference && found.found then name == raw && value == v
       else IsTarget(m, name) && value == found.value
  }

  predicate GivesReference(task: Task, m: FieldMapping, name: string, target: string) {
    var found := task.lib.get(task.js, m.path);
    m.isReference && !m.isIdField && !m.isDeletedField && found.found
    && IsTarget(m, name) && target == task.lib.format(m.referenceTemplate, found.value)
  }

  predicate GivesId(task: Task, m: FieldMapping, id: string) {
    m.isIdField && IsIdFor(task, m, id)
  }

  predicate GivesDeleted(task: Task, m: FieldMapping) {
    m.isDeletedField && !m.isIdField && task.lib.get(task.js, m.path).flag
  }

  /** The leaf at `path` is subject to the mapping `m`, which does not ignore it. */
  ghost predicate IsMappedLeaf(task: Task, items: map<string, Value>, path: seq<string>, v: Value, m: FieldMapping) {
    IsLeaf(items, path, v) && Last(path) in task.columns && task.columns[Last(path)] == m && !m.ignoreField
  }

  /** Nothing is stored, and no value, that does not come from a leaf; an ignored leaf gives nothing, at any depth. */
  lemma NothingElseIsStored(task: Task, items: map<string, Value>, e: EntityState)
    requires Applied(EMPTY_ENTITY, EntityWrites(task, items), e)
    ensures forall name | name in e.properties :: exists path, v ::
            IsLeaf(items, path, v) && Gives(task, path, v, name, e.properties[name])
    ensures forall name | name in e.references ::
              exists path, v, m :: IsMappedLeaf(task, items, path, v, m)
                && GivesReference(task, m, name, e.references[name])
    ensures e.id != "" ==> exists path, v, m :: IsMappedLeaf(task, items, path, v, m) && GivesId(task, m, e.id)
    ensures e.isDeleted ==> exists path, v, m :: IsMappedLeaf(task, items, path, v, m) && GivesDeleted(task, m)
  {
    forall name | name in e.properties
      ensures exists path, v :: IsLeaf(items, path, v) && Gives(task, path, v, name, e.properties[name])
    {
      var path, v, _ := WrittenHasPath(task, items, e, PropertyLocation(name));
      assert IsLeaf(items, path, v) && Gives(task, path, v, name, e.properties[name]);
    }
    forall name | name in e.references
      ensures exists path, v, m ::
              IsMappedLeaf(task, items, path, v, m) && GivesReference(task, m, name, e.references[name])
    {
      var path, v, _ := WrittenHasPath(task, items, e, ReferenceLocation(name));
      var m := task.columns[Last(path)];
      assert IsMappedLeaf(task, items, path, v, m) && GivesReference(task, m, name, e.references[name]);
    }
    if e.id != "" {
      var path, v, _ := WrittenHasPath(task, items, e, IdLocation);
      var m := task.columns[Last(path)];
      assert IsMappedLeaf(task, items, path, v, m) && GivesId(task, m, e.id);
    }
    if e.isDeleted {
      var path, v, _ := WrittenHasPath(task, items, e, DeletedLocation);
      var m := task.columns[Last(path)];
      assert IsMappedLeaf(task, items, path, v, m) && GivesDeleted(task, m);
    }
  }

  lemma WrittenHasPath(task: Task, items: map<string, Value>, e: EntityState, at: Location)
    returns (path: seq<string>, v: Value, w: Write)
    requires Applied(EMPTY_ENTITY, EntityWrites(task, items), e) && !Agree(EMPTY_ENTITY, e, at)
    ensures IsLeaf(items, path, v) && w in LeafWrites(task, LeafOf(path, v)) && LocationOf(w) == at && Holds(e, w)
  {
    assert Written(EntityWrites(task, items), e, at);
    w :| w in EntityWrites(task, items) && LocationOf(w) == at && Holds(e, w);
    path, v := WriteHasPath(task, items, w);
  }

  /** Without mappings the properties are exactly the leaves, one for each, under their dotted addresses. */
  lemma ExactWithoutMappings(task: Task, items: map<string, Value>, e: EntityState)
    requires task.columns == map[] && DotFree(Obj(items)) && Applied(EMPTY_ENTITY, EntityWrites(task, items), e)
    ensures e.id == "" && !e.isDeleted && e.references == map[]
    ensures forall path, v | IsLeaf(items, path, v) :: Has(e.properties, "ns0:" + Dotted(path), v)
    ensures forall name | name in e.properties :: exists path, v ::
            IsLeaf(items, path, v) && name == "ns0:" + Dotted(path)
    ensures forall p, q, v, w | IsLeaf(items, p, v) && IsLeaf(items, q, w) && Dotted(p) == Dotted(q) :: p == q
  {
    NothingElseIsStored(task, items, e);
    forall path, v | IsLeaf(items, path, v) ensures Has(e.properties, "ns0:" + Dotted(path), v) {
      LeavesAreStored(task, items, e, path, v);
    }
    forall p, q, v, w | IsLeaf(items, p, v) && IsLeaf(items, q, w) && Dotted(p) == Dotted(q) ensures p == q {
      LeavesDoNotCollide(Obj(items), p, q);
    }
  }

  /** Header names are mapped case-insensitively, and of several headers with one name the last counts. */
  lemma {:induction false} LastHeaderCounts(headers: seq<(string, string)>, lower: string -> string, i: nat)
    requires i < |headers| && forall j | i < j < |headers| :: lower(headers[j].0) != lower(headers[i].0)
    ensures Has(HeaderMap(headers, lower), lower(headers[i].0), headers[i].1)
  {
    if i < |headers| - 1 {
      var init := headers[..|headers| - 1];
      assert init[i] == headers[i] && forall j | i < j < |init| :: init[j] == headers[j];
      LastHeaderCounts(init, lower, i);
    }
  }

  /** The headers are those names, in lower case, that occur, each with the value of its last occurrence. */
  lemma {:induction false} HeaderMapIff(headers: seq<(string, string)>, lower: string -> string, name: string,
                                        v: string)
    ensures Has(HeaderMap(headers, lower), name, v) <==> exists i :: IsLastHeader(headers, lower, name, v, i)
  {
    if headers != [] {
      var init, n := headers[..|headers| - 1], |headers| - 1;
      HeaderMapIff(init, lower, name, v);
      if lower(headers[n].0) == name {
        assert v == headers[n].1 ==> IsLastHeader(headers, lower, name, v, n);
      } else {
        if i :| IsLastHeader(init, lower, name, v, i) { assert IsLastHeader(headers, lower, name, v, i); }
        if i :| IsLastHeader(headers, lower, name, v, i) { assert IsLastHeader(init, lower, name, v, i); }
      }
    }
  }

  predicate IsLastHeader(headers: seq<(string, string)>, lower: string -> string, name: string, v: string, i: int) {
    && 0 <= i < |headers| && lower(headers[i].0) == name && headers[i].1 == v
    && forall j | i < j < |headers| :: lower(headers[j].0) != name
  }

  /** The property that a header is stored under. */
  function HeaderProperty(name: string): string {
    "ns0:kafka_header." + name
  }

  lemma HeaderPropertyIs(name: string)
    ensures HeaderProperty(name) == "ns0:" + (HEADER_PREFIX + name) && "ns0:kafka_header." <= HeaderProperty(name)
    ensures HeaderProperty(name)[|"ns0:kafka_header."|..] == name
  {
  }

  lemma HeaderLeavesAre(headers: map<string, string>, l: Leaf)
    ensures l in HeaderLeaves(headers) <==> exists k :: k in headers && l == Leaf(HEADER_PREFIX + k, k, Str(headers[k]))
  {
    var v := HeaderObject(headers);
    assert forall k | k in headers ::
           Leaves(HEADER_PREFIX, k, v.fields[k]) == {Leaf(HEADER_PREFIX + k, k, Str(headers[k]))};
  }

  lemma HeaderWrites(task: Task, headers: map<string, string>, w: Write)
    requires forall k | k in headers :: k !in task.columns
    ensures w in WritesOf(task, HeaderLeaves(headers)) <==>
            exists k :: k in headers && w == SetProperty(HeaderProperty(k), Str(headers[k]))
  {
    hide HeaderLeaves, HeaderProperty;
    if l :| l in HeaderLeaves(headers) && w in LeafWrites(task, l) {
      HeaderLeavesAre(headers, l);
      HeaderPropertyIs(l.name);
    }
    if k :| k in headers && w == SetProperty(HeaderProperty(k), Str(headers[k])) {
      var l := Leaf(HEADER_PREFIX + k, k, Str(headers[k]));
      HeaderLeavesAre(headers, l);
      HeaderPropertyIs(k);
      assert LeafWrites(task, l) == [w];
      assert w in LeafWrites(task, l);
    }
  }

  /**
   * Headers that are not mapped are laid over the finished entity: each under its own prefixed
   * property, and nothing else moves. A property of the body is kept unless it is that of a header.
   */
  lemma HeadersOverlay(task: Task, headers: map<string, string>, body: EntityState, e: EntityState)
    requires forall k | k in headers :: k !in task.columns
    requires Applied(body, WritesOf(task, HeaderLeaves(headers)), e)
    ensures e.id == body.id && e.isDeleted == body.isDeleted && e.references == body.references
    ensures forall k | k in headers :: Has(e.properties, HeaderProperty(k), Str(headers[k]))
    ensures forall name | name in e.properties :: Has(body.properties, name, e.properties[name])
              || exists k :: k in headers && name == HeaderProperty(k)
    ensures forall name | name in body.properties ::
              Has(e.properties, name, body.properties[name]) || exists k :: k in headers && name == HeaderProperty(k)
    ensures (forall name | name in body.properties :: !("ns0:kafka_header." <= name)) ==>
              forall name | name in body.properties :: Has(e.properties, name, body.properties[name])
  {
    hide WritesOf, HeaderLeaves, HeaderProperty;
    var ws := WritesOf(task, HeaderLeaves(headers));
    forall w ensures w in ws <==> exists k :: k in headers && w == SetProperty(HeaderProperty(k), Str(headers[k])) {
      HeaderWrites(task, headers, w);
    }
    forall k | k in headers ensures "ns0:kafka_header." <= HeaderProperty(k) { HeaderPropertyIs(k); }
    WritesOverlay(headers, body, ws, e);
    forall name | name in e.properties
      ensures Has(body.properties, name, e.properties[name]) || exists k :: k in headers && name == HeaderProperty(k)
    {
      assert Agree(body, e, PropertyLocation(name)) || exists k :: k in headers && name == HeaderProperty(k);
    }
    forall name | name in body.properties
      ensures Has(e.properties, name, body.properties[name]) || exists k :: k in headers && name == HeaderProperty(k)
    {
      assert Agree(body, e, PropertyLocation(name)) || exists k :: k in headers && name == HeaderProperty(k);
    }
  }

  lemma WritesOverlay(headers: map<string, string>, body: EntityState, ws: set<Write>, e: EntityState)
    requires forall w :: w in ws <==> exists k :: k in headers && w == SetProperty(HeaderProperty(k), Str(headers[k]))
    requires Applied(body, ws, e)
    ensures e.id == body.id && e.isDeleted == body.isDeleted && e.references == body.references
    ensures forall k | k in headers :: Has(e.properties, HeaderProperty(k), Str(headers[k]))
    ensures forall name: string ::
              Agree(body, e, PropertyLocation(name)) || exists k :: k in headers && name == HeaderProperty(k)
  {
    hide HeaderProperty;
    assert Untouched(ws, IdLocation) && Untouched(ws, DeletedLocation);
    assert Agree(body, e, IdLocation) && Agree(body, e, DeletedLocation);
    forall name: string ensures Agree(body, e, ReferenceLocation(name)) {
      assert Untouched(ws, ReferenceLocation(name));
    }
    assert e.references == body.references by { SameReferences(body, e); }
    forall k | k in headers ensures Has(e.properties, HeaderProperty(k), Str(headers[k])) {
      HeaderIsStored(headers, body, ws, e, k);
    }
    forall name: string
      ensures Agree(body, e, PropertyLocation(name)) || exists k :: k in headers && name == HeaderProperty(k)
    {
      if w :| w in ws && LocationOf(w) == PropertyLocation(name) {
        var k :| k in headers && w == SetProperty(HeaderProperty(k), Str(headers[k]));
      } else {
        assert Untouched(ws, PropertyLocation(name));
      }
    }
  }

  lemma SameReferences(a: EntityState, b: EntityState)
    requires forall name: string :: Agree(a, b, ReferenceLocation(name))
    ensures a.references == b.references
  {
    forall name: string
      ensures name in a.references <==> name in b.references
      ensures name in a.references ==> a.references[name] == b.references[name]
    {
      assert Agree(a, b, ReferenceLocation(name));
    }
  }

  lemma HeaderIsStored(headers: map<string, string>, body: EntityState, ws: set<Write>, e: EntityState, k: string)
    requires forall w :: w in ws <==> exists k :: k in headers && w == SetProperty(HeaderProperty(k), Str(headers[k]))
    requires Applied(body, ws, e) && k in headers
    ensures Has(e.properties, HeaderProperty(k), Str(headers[k]))
  {
    hide HeaderProperty;
    var w := SetProperty(HeaderProperty(k), Str(headers[k]));
    assert w in ws && !Untouched(ws, LocationOf(w));
    assert Written(ws, e, LocationOf(w));
    var v :| v in ws && LocationOf(v) == LocationOf(w) && Holds(e, v);
    var j :| j in headers && v == SetProperty(HeaderProperty(j), Str(headers[j]));
    HeaderPropertyIs(j);
    HeaderPropertyIs(k);
  }

  /**
   * An unmapped part of a tidy document is stored under its dotted address: a scalar or null as it
   * is, an array as the slice of its items.
   */
  lemma PartsAreStored(task: Task, items: map<string, Value>, e: EntityState, path: seq<string>, part: Value,
                       leaf: Value)
    requires Tidy(task, items) && Applied(EMPTY_ENTITY, EntityWrites(task, items), e)
    requires path != [] && Last(path) !in task.columns
    requires PartAt(Obj(items), path) == Some(part) && IsStoredAs(part, leaf)
    ensures Has(e.properties, "ns0:" + Dotted(path), leaf)
  {
    LeafAtIff(Obj(items), path, leaf);
    LeavesAreStored(task, items, e, path, leaf);
  }
}
