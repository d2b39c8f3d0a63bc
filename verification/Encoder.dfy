/**
 * The entity encoder: a recursion over the document that changes one entity in place, walking
 * maps in whatever order the runtime chooses.
 */
module Encoder {
  import opened Decimal
  import opened Options
  import opened Document
  import opened Writes

  class Entity {
    var id: string
    var isDeleted: bool
    var references: map<string, string>
    var properties: map<string, Value>

    constructor ()
      ensures State() == EMPTY_ENTITY
    {
      id, isDeleted, references, properties := "", false, map[], map[];
    }

    function State(): EntityState
      reads this
    {
      EntityState(id, isDeleted, references, properties)
    }
  }

  class EntityEncoder {
    const config: Config
    const lib: Library
    var columns: Columns

    /** For a field name that is mapped more than once, the last mapping counts. */
    constructor (config: Config, lib: Library)
      ensures this.config == config && this.lib == lib
      ensures forall f :: f in columns <==>
                exists i :: 0 <= i < |config.fieldMappings| && config.fieldMappings[i].fieldName == f
      ensures forall f | f in columns :: IsLastMapping(config.fieldMappings, f, columns[f])
    {
      this.config, this.lib := config, lib;
      columns := map[];
      new;
      var mappings := config.fieldMappings;
      for n := 0 to |mappings|
        invariant forall f :: f in columns <==> exists i :: 0 <= i < n && mappings[i].fieldName == f
        invariant forall f | f in columns :: IsLastMapping(mappings[..n], f, columns[f])
      {
        LastMappingStep(mappings, n, columns);
        columns := columns[mappings[n].fieldName := mappings[n]];
      }
      assert mappings[..|mappings|] == mappings;
    }

    ghost function TaskOf(js: string, key: string): Task
      reads this
    {
      Task(config, columns, lib, js, key)
    }

    /** One leaf: `v` is a scalar, null or a typed slice. */
    method StoreLeaf(prefix: string, k: string, v: Value, js: string, entity: Entity, key: string)
      modifies entity
      ensures entity.State() == PutAll(old(entity.State()), LeafWrites(TaskOf(js, key), Leaf(prefix + k, k, v)))
    {
      ghost var before := entity.State();
      var fieldName := "ns0:" + (prefix + k);
      ghost var raw := SetProperty(fieldName, v);
      if k in columns {
        var mapping := columns[k];
        if mapping.ignoreField {
          return;
        }
        var propName := "ns0:" + mapping.fieldName;
        if mapping.propertyName != "" {
          propName := "ns0:" + mapping.propertyName;
        }
        var value := lib.get(js, mapping.path);
        if mapping.isIdField {
          if mapping.path == "kafkaKey" {
            entity.id := config.baseNameSpace + lib.format(config.entityIdConstructor, Str(key));
          } else {
            entity.id := config.baseNameSpace + lib.format(config.entityIdConstructor, value.value);
            entity.properties := entity.properties[fieldName := v];
          }
          PutFew(before, SetId(entity.id), raw);
        } else if mapping.isDeletedField {
          entity.isDeleted := value.flag;
          PutFew(before, SetDeleted(value.flag), raw);
        } else if mapping.isReference && value.found {
          entity.references := entity.references[propName := lib.format(mapping.referenceTemplate, value.value)];
          entity.properties := entity.properties[fieldName := v];
          PutFew(before, SetReference(propName, lib.format(mapping.referenceTemplate, value.value)), raw);
        } else {
          entity.properties := entity.properties[propName := value.value];
          PutFew(before, SetProperty(propName, value.value), raw);
        }
      } else {
        entity.properties := entity.properties[fieldName := v];
        PutFew(before, raw, raw);
      }
    }

    /** Flattens every field of an object, in any order; false stands for a failed type assertion. */
    method FlattenFields(prefix: string, v: Value, js: string, entity: Entity, key: string)
      returns (ok: bool, ghost ws: seq<Write>)
      requires v.Obj?
      modifies entity
      ensures ok == PanicFree(v)
      ensures ok ==> FieldsLead(TaskOf(js, key), prefix, v, v.fields.Keys, old(entity.State()), ws, entity.State())
      decreases 1, v, 1
    {
      var rest := v.fields.Keys;
      ghost var names: set<string> := {};
      ws := [];
      ghost var task, before := TaskOf(js, key), entity.State();
      assert FieldsLead(task, prefix, v, names, before, ws, before);
      hide FieldsLead, Leads;
      while rest != {}
        invariant rest <= v.fields.Keys && names == v.fields.Keys - rest
        invariant forall k | k in names :: PanicFree(v.fields[k])
        invariant FieldsLead(task, prefix, v, names, before, ws, entity.State())
        decreases |rest|
      {
        var k :| k in rest;
        ghost var between := entity.State();
        ghost var more;
        ok, more := Flatten(prefix, k, v.fields[k], js, entity, key);
        if !ok {
          return;
        }
        FieldsLeadOn(task, prefix, v, names, k, before, ws, between, more, entity.State());
        ws := ws + more;
        names := names + {k};
        rest := rest - {k};
      }
      assert names == v.fields.Keys;
      ok := true;
    }

    /** The objects inside an array, in order; `objArray` tells whether there is nothing else. */
    method FlattenItems(prefix: string, k: string, items: seq<Value>, js: string, entity: Entity, key: string)
      returns (ok: bool, objArray: bool, ghost ws: seq<Write>)
      modifies entity
      ensures ok == forall i | 0 <= i < |items| :: items[i].Obj? ==> PanicFree(items[i])
      ensures ok ==> objArray == AllObjects(items)
      ensures ok ==> ItemsLead(TaskOf(js, key), prefix + k, items, |items|, old(entity.State()), ws, entity.State())
      decreases 1, Arr(items), 1
    {
      ok, objArray, ws := true, true, [];
      ghost var task, before := TaskOf(js, key), entity.State();
      assert ItemsLead(task, prefix + k, items, 0, before, ws, before);
      hide FieldsLead, PanicFree;
      for i := 0 to |items|
        invariant ok && objArray == AllObjects(items[..i])
        invariant forall j | 0 <= j < i :: items[j].Obj? ==> PanicFree(items[j])
        invariant ItemsLead(task, prefix + k, items, i, before, ws, entity.State())
      {
        if items[i].Obj? {
          ghost var between := entity.State();
          ghost var more;
          ok, more := FlattenFields(prefix + k + "." + Itoa(i) + ".", items[i], js, entity, key);
          if !ok {
            return;
          }
          ItemsLeadOn(task, prefix + k, items, i, before, ws, between, more, entity.State());
          ws := ws + more;
        } else {
          objArray := false;
        }
      }
      assert items[..|items|] == items;
    }

    /**
     * The array as a typed slice, by the type of its first item. The method that is called for
     * the slice is the one for any field; the slice is a leaf, so that call goes no deeper.
     */
    method FlattenSlice(prefix: string, k: string, items: seq<Value>, js: string, entity: Entity, key: string)
      returns (ok: bool)
      requires items != []
      modifies entity
      ensures ok == Homogeneous(items)
      ensures ok ==> entity.State() == PutAll(old(entity.State()), SliceWrites(TaskOf(js, key), prefix, k, items))
      decreases 1, Arr(items), 0
    {
      ok := true;
      ghost var ws;
      match items[0] {
        case Str(_) =>
          var strs: seq<string> := [];
          for i := 0 to |items|
            invariant |strs| == i
            invariant forall j | 0 <= j < i :: items[j] == Str(strs[j])
          {
            if !items[i].Str? {
              return false;
            }
            strs := strs + [items[i].s];
          }
          assert strs == ArrayLeaf(items).value.strs;
          ok, ws := Flatten(prefix, k, Strs(strs), js, entity, key);
        case Num(_) =>
          var nums: seq<real> := [];
          for i := 0 to |items|
            invariant |nums| == i
            invariant forall j | 0 <= j < i :: items[j] == Num(nums[j])
          {
            if !items[i].Num? {
              return false;
            }
            nums := nums + [items[i].n];
          }
          assert nums == ArrayLeaf(items).value.nums;
          ok, ws := Flatten(prefix, k, Nums(nums), js, entity, key);
        case Bool(_) =>
          var bools: seq<bool> := [];
          for i := 0 to |items|
            invariant |bools| == i
            invariant forall j | 0 <= j < i :: items[j] == Bool(bools[j])
          {
            if !items[i].Bool? {
              return false;
            }
            bools := bools + [items[i].b];
          }
          assert bools == ArrayLeaf(items).value.bools;
          ok, ws := Flatten(prefix, k, Bools(bools), js, entity, key);
        case _ =>
      }
    }

    /** One field. */
    method Flatten(prefix: string, k: string, v: Value, js: string, entity: Entity, key: string)
      returns (ok: bool, ghost ws: seq<Write>)
      modifies entity
      ensures ok == PanicFree(v)
      ensures ok ==> Leads(TaskOf(js, key), prefix, k, v, old(entity.State()), ws, entity.State())
      decreases if v.Arr? || v.Obj? then 1 else 0, v, 2
    {
      match v {
        case Obj(fields) =>
          ok, ws := FlattenFields(prefix + k + ".", v, js, entity, key);
        case Arr(items) =>
          var objArray;
          ok, objArray, ws := FlattenItems(prefix, k, items, js, entity, key);
          if !ok {
            return;
          }
          if !objArray && |items| > 0 {
            ok := FlattenSlice(prefix, k, items, js, entity, key);
          }
          if ok {
            ghost var own := SliceWrites(TaskOf(js, key), prefix, k, items);
            PutAllConcat(old(entity.State()), ws, own);
            ws := ws + own;
          }
        case _ =>
          StoreLeaf(prefix, k, v, js, entity, key);
          ws := LeafWrites(TaskOf(js, key), Leaf(prefix + k, k, v));
          ok := true;
      }
    }

    /** `items` is what `json.Unmarshal` makes of the message; nothing, if it is no object. */
    method Encode(key: string, js: string, items: map<string, Value>)
      returns (ok: bool, entity: Entity, ghost ws: seq<Write>)
      ensures fresh(entity)
      ensures ok == PanicFree(Obj(items))
      ensures ok ==> FieldsLead(TaskOf(js, key), "", Obj(items), items.Keys, EMPTY_ENTITY, ws, entity.State())
      ensures ok ==> Applied(EMPTY_ENTITY, WritesOf(TaskOf(js, key), DocumentLeaves(items)), entity.State())
    {
      entity := new Entity();
      ok, ws := FlattenFields("", Obj(items), js, entity, key);
      if ok {
        WalkApplies(TaskOf(js, key), "", Obj(items), items.Keys, EMPTY_ENTITY, ws, entity.State());
      }
    }

    method CollectHeaders(kafkaHeaders: seq<(string, string)>, lower: string -> string)
      returns (headers: map<string, string>)
      ensures headers == HeaderMap(kafkaHeaders, lower)
    {
      headers := map[];
      for i := 0 to |kafkaHeaders|
        invariant headers == HeaderMap(kafkaHeaders[..i], lower)
      {
        assert kafkaHeaders[..i + 1][..i] == kafkaHeaders[..i];
        headers := headers[lower(kafkaHeaders[i].0) := kafkaHeaders[i].1];
      }
      assert kafkaHeaders[..|kafkaHeaders|] == kafkaHeaders;
    }

    /** `body` is the entity as it is before the headers are added. */
    method EncodeWithHeaders(key: string, js: string, items: map<string, Value>, kafkaHeaders: seq<(string, string)>,
                             lower: string -> string, marshal: map<string, string> -> string)
      returns (ok: bool, entity: Entity, ghost body: EntityState, ghost ws: seq<Write>, ghost more: seq<Write>)
      ensures fresh(entity)
      ensures ok == PanicFree(Obj(items))
      ensures ok ==> FieldsLead(TaskOf(js, key), "", Obj(items), items.Keys, EMPTY_ENTITY, ws, body)
      ensures ok ==> Applied(EMPTY_ENTITY, WritesOf(TaskOf(js, key), DocumentLeaves(items)), body)
      ensures ok ==> var headers := HeaderMap(kafkaHeaders, lower);
                     FieldsLead(TaskOf(marshal(headers), key), HEADER_PREFIX, HeaderObject(headers), headers.Keys,
                                body, more, entity.State())
      ensures ok ==> var headers := HeaderMap(kafkaHeaders, lower);
                     Applied(body, WritesOf(TaskOf(marshal(headers), key), HeaderLeaves(headers)), entity.State())
    {
      ok, entity, ws := Encode(key, js, items);
      body, more := entity.State(), [];
      if !ok {
        return;
      }
      var headers := CollectHeaders(kafkaHeaders, lower);
      var v := HeaderObject(headers);
      assert v.fields.Keys == headers.Keys && PanicFree(v);
      hide WritesOf, Applied, Leaves, DocumentLeaves, PanicFree, FieldsLead;
      ok, more := FlattenFields(HEADER_PREFIX, v, marshal(headers), entity, key);
      WalkApplies(TaskOf(marshal(headers), key), HEADER_PREFIX, v, headers.Keys, body, more, entity.State());
    }
  }

  const HEADER_PREFIX := "kafka_header."

  function HeaderObject(headers: map<string, string>): (v: Value)
    ensures v.Obj?
  {
    Obj(map k | k in headers :: Str(headers[k]))
  }

  ghost function HeaderLeaves(headers: map<string, string>): set<Leaf> {
    FieldLeaves(HEADER_PREFIX, HeaderObject(headers), headers.Keys)
  }

  /** Header names in lower case; of several headers with one name the last counts. */
  function HeaderMap(headers: seq<(string, string)>, lower: string -> string): map<string, string> {
    if headers == [] then map[] else
    var last := headers[|headers| - 1];
    HeaderMap(headers[..|headers| - 1], lower)[lower(last.0) := last.1]
  }

  ghost predicate IsLastMapping(mappings: seq<FieldMapping>, f: string, m: FieldMapping) {
    exists i :: 0 <= i < |mappings| && mappings[i] == m && m.fieldName == f
                && forall j | i < j < |mappings| :: mappings[j].fieldName != f
  }

  lemma LastMappingStep(mappings: seq<FieldMapping>, n: nat, columns: Columns)
    requires n < |mappings| && forall f | f in columns :: IsLastMapping(mappings[..n], f, columns[f])
    ensures var next := columns[mappings[n].fieldName := mappings[n]];
            forall f | f in next :: IsLastMapping(mappings[..n + 1], f, next[f])
  {
    var m := mappings[n];
    assert mappings[..n + 1][n] == m;
    forall f | f in columns && f != m.fieldName ensures IsLastMapping(mappings[..n + 1], f, columns[f]) {
      var i :| 0 <= i < n && mappings[..n][i] == columns[f] && columns[f].fieldName == f
               && forall j | i < j < n :: mappings[..n][j].fieldName != f;
      assert mappings[..n + 1][i] == columns[f];
    }
  }
}
