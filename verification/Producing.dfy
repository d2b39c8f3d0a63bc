/** Incoming entities, and the messages they are turned into. */
module Producing {
  import opened Decimal
  import opened Options
  import opened Document

  datatype Entity = Entity(id: string, token: Option<string>, isDeleted: bool, properties: map<string, Value>)

  datatype Context = Context(id: string, namespaces: map<string, string>, lookup: map<string, string>)

  datatype ProducerConfig = ProducerConfig(dataset: string, topic: string, stripProps: bool, key: Option<string>)

  /** A random key is told apart from the others, but its value is left open. */
  datatype MessageKey = NoKey | Key(bytes: string) | RandomKey

  /** What is marshalled into the value of a message. */
  datatype Payload =
    | Whole(entity: Entity, namespaces: map<string, string>)
    | Stripped(id: string, isDeleted: bool, props: map<string, Value>)

  datatype Message = Message(key: MessageKey, payload: Payload)

  function Text(fields: map<string, Value>, name: string): Option<string> {
    if name in fields && fields[name].Str? then Some(fields[name].s) else None
  }

  /** `AsEntity`; none stands for a failed type assertion. */
  function AsEntity(v: Value): Option<Entity> {
    if !v.Obj? then None else
    var id := Text(v.fields, "id");
    if id.None? then None else
    var token := if id.value == "@continuation" then Text(v.fields, "token") else None;
    if id.value == "@continuation" && token.None? then None
    else if "deleted" in v.fields && !v.fields["deleted"].Bool? then None
    else if "props" in v.fields && !v.fields["props"].Obj? then None
    else Some(Entity(id.value, token, "deleted" in v.fields && v.fields["deleted"].b,
                     if "props" in v.fields then v.fields["props"].fields else map[]))
  }

  /** The fields of a posted object say what the entity is. */
  predicate Describes(fields: map<string, Value>, e: Entity) {
    && "id" in fields && fields["id"] == Str(e.id)
    && (if e.id == "@continuation" then e.token.Some? && "token" in fields && fields["token"] == Str(e.token.value)
        else e.token.None?)
    && (if "deleted" in fields then fields["deleted"] == Bool(e.isDeleted) else !e.isDeleted)
    && (if "props" in fields then fields["props"] == Obj(e.properties) else e.properties == map[])
  }

  /** A posted value is read as the entity that its fields describe, and fails exactly if they describe none. */
  lemma AsEntityIff(v: Value, e: Entity)
    ensures AsEntity(v) == Some(e) <==> v.Obj? && Describes(v.fields, e)
  {
  }

  /** The object that stands for an entity. */
  function Posted(e: Entity): Value {
    Obj(map["id" := Str(e.id), "deleted" := Bool(e.isDeleted), "props" := Obj(e.properties)])
  }

  lemma PostedIsRead(e: Entity)
    requires e.id != "@continuation" && e.token.None?
    ensures AsEntity(Posted(e)) == Some(e)
  {
    AsEntityIff(Posted(e), e);
  }

  /** The namespaces of a context value, if all is well with it. */
  function Namespaces(v: Value): Option<map<string, string>> {
    if !v.Obj? || Text(v.fields, "id").None? then None
    else if "namespaces" !in v.fields then Some(map[])
    else if !v.fields["namespaces"].Obj? then None
    else
      var ns := v.fields["namespaces"].fields;
      if exists k | k in ns :: !ns[k].Str? then None else Some(map k | k in ns && ns[k].Str? :: ns[k].s)
  }

  /** A context has an id, and every namespace is a string. */
  lemma NamespacesIff(v: Value, namespaces: map<string, string>)
    ensures Namespaces(v) == Some(namespaces) <==>
              && v.Obj? && "id" in v.fields && v.fields["id"].Str?
              && if "namespaces" in v.fields then
                   && v.fields["namespaces"].Obj? && v.fields["namespaces"].fields.Keys == namespaces.Keys
                   && forall k | k in namespaces :: v.fields["namespaces"].fields[k] == Str(namespaces[k])
                 else namespaces == map[]
  {
    if v.Obj? && "namespaces" in v.fields && v.fields["namespaces"].Obj? {
      var ns := v.fields["namespaces"].fields;
      assert forall k | k in ns :: k in ns.Keys;
      if Namespaces(v).Some? {
        assert Namespaces(v).value.Keys == ns.Keys;
        assert Namespaces(v).value == namespaces <==>
               namespaces.Keys == ns.Keys && forall k | k in namespaces :: Namespaces(v).value[k] == namespaces[k];
      }
    }
  }

  /** `lookup` leads from every namespace to one of its prefixes, and nowhere else. */
  ghost predicate IsReverse(namespaces: map<string, string>, lookup: map<string, string>) {
    && (forall prefix | prefix in namespaces :: namespaces[prefix] in lookup)
    && (forall uri | uri in lookup :: lookup[uri] in namespaces && namespaces[lookup[uri]] == uri)
  }

  /** Where no namespace has two prefixes, the lookup is the inverse map. */
  lemma ReverseIsInverse(namespaces: map<string, string>, lookup: map<string, string>, prefix: string, uri: string)
    requires IsReverse(namespaces, lookup)
    requires forall p, q | p in namespaces && q in namespaces && namespaces[p] == namespaces[q] :: p == q
    ensures (uri in lookup && lookup[uri] == prefix) <==> (prefix in namespaces && namespaces[prefix] == uri)
  {
    if prefix in namespaces && namespaces[prefix] == uri {
      assert namespaces[lookup[uri]] == namespaces[prefix];
    }
  }

  /** `AsContext`, which fills the reverse lookup in whatever order the map is walked. */
  method AsContext(v: Value) returns (ctx: Option<Context>)
    ensures ctx.Some? <==> Namespaces(v).Some?
    ensures ctx.Some? ==> v.fields["id"] == Str(ctx.value.id)
    ensures ctx.Some? ==>
              ctx.value.namespaces == Namespaces(v).value && IsReverse(ctx.value.namespaces, ctx.value.lookup)
  {
    var namespaces := Namespaces(v);
    if namespaces.None? {
      return None;
    }
    var lookup: map<string, string> := map[];
    var rest := namespaces.value.Keys;
    while rest != {}
      invariant rest <= namespaces.value.Keys
      invariant forall prefix | prefix in namespaces.value && prefix !in rest :: namespaces.value[prefix] in lookup
      invariant forall uri | uri in lookup :: lookup[uri] in namespaces.value && namespaces.value[lookup[uri]] == uri
      decreases |rest|
    {
      var prefix :| prefix in rest;
      lookup := lookup[namespaces.value[prefix] := prefix];
      rest := rest - {prefix};
    }
    return Some(Context(Text(v.fields, "id").value, namespaces.value, lookup));
  }

  /** `strings.SplitAfter(s, ":")`. */
  function SplitAfterColon(s: string): (pieces: seq<string>)
    ensures pieces != []
  {
    if s == "" then [""] else
    var pieces := SplitAfterColon(s[1..]);
    if s[0] == ':' then [":"] + pieces else [[s[0]] + pieces[0]] + pieces[1..]
  }

  /** The second piece; without a colon there is none, and the index panics. */
  function Local(name: string): Option<string> {
    var pieces := SplitAfterColon(name);
    if |pieces| > 1 then Some(pieces[1]) else None
  }

  lemma {:induction false} NoColonIsOnePiece(s: string)
    requires forall c | c in s :: c != ':'
    ensures SplitAfterColon(s) == [s]
  {
    if s != "" {
      assert forall i | 0 <= i < |s| :: s[i] in s;
      NoColonIsOnePiece(s[1..]);
      assert [s[0]] + s[1..] == s;
    }
  }

  lemma {:induction false} ColonSplits(prefix: string, rest: string)
    requires forall c | c in prefix :: c != ':'
    ensures SplitAfterColon(prefix + ":" + rest) == [prefix + ":"] + SplitAfterColon(rest)
  {
    if prefix == "" {
      assert "" + ":" + rest == ":" + rest && (":" + rest)[1..] == rest;
    } else {
      var s := prefix + ":" + rest;
      assert forall i | 0 <= i < |prefix| :: prefix[i] in prefix;
      assert s[1..] == prefix[1..] + ":" + rest && s[0] == prefix[0];
      ColonSplits(prefix[1..], rest);
      assert [prefix[0]] + (prefix[1..] + ":") == prefix + ":";
    }
  }

  /** Of a name with one colon the part behind it is kept. */
  lemma LocalOfQualified(prefix: string, local: string)
    requires (forall c | c in prefix :: c != ':') && forall c | c in local :: c != ':'
    ensures Local(prefix + ":" + local) == Some(local)
  {
    ColonSplits(prefix, local);
    NoColonIsOnePiece(local);
  }

  /** What is kept of a name ends behind the second colon; without a first one there is nothing to keep. */
  lemma LocalIs(name: string, prefix: string, rest: string, middle: string, more: string)
    requires (forall c | c in prefix :: c != ':') && forall c | c in middle :: c != ':'
    ensures name == prefix ==> Local(name) == None
    ensures name == prefix + ":" + rest && rest == middle ==> Local(name) == Some(middle)
    ensures name == prefix + ":" + rest && rest == middle + ":" + more ==> Local(name) == Some(middle + ":")
  {
    NoColonIsOnePiece(prefix);
    NoColonIsOnePiece(middle);
    ColonSplits(prefix, rest);
    ColonSplits(middle, more);
  }

  /** The id and every property name have a colon. */
  predicate Strippable(e: Entity) {
    Local(e.id).Some? && forall k | k in e.properties :: Local(k).Some?
  }

  /** `stripped` holds every property under its local name; of several with one local name, any of them. */
  ghost predicate IsStripped(properties: map<string, Value>, stripped: map<string, Value>) {
    && (forall k | k in properties :: Local(k).Some? && Local(k).value in stripped)
    && (forall n | n in stripped :: exists k :: k in properties && Local(k) == Some(n) && stripped[n] == properties[k])
  }

  /** The property is found under its local name. */
  predicate Kept(properties: map<string, Value>, stripped: map<string, Value>, k: string)
    requires k in properties
  {
    var n := Local(k);
    n.Some? && n.value in stripped && stripped[n.value] == properties[k]
  }

  /** Properties with one local name have one value. */
  ghost predicate NoClash(properties: map<string, Value>) {
    forall i, j | i in properties && j in properties && Local(i) == Local(j) :: properties[i] == properties[j]
  }

  ghost function Pick(properties: map<string, Value>, n: string): (k: string)
    requires exists k :: k in properties && Local(k) == Some(n)
    ensures k in properties && Local(k) == Some(n)
  {
    var k :| k in properties && Local(k) == Some(n);
    k
  }

  lemma SomeStripped(properties: map<string, Value>) returns (stripped: map<string, Value>)
    requires forall k | k in properties :: Local(k).Some?
    ensures IsStripped(properties, stripped)
  {
    hide Local;
    var names := set k | k in properties :: Local(k).value;
    assert forall n | n in names :: exists k :: k in properties && Local(k) == Some(n);
    stripped := map n | n in names :: properties[Pick(properties, n)];
  }

  /** Nothing is lost, in whatever order the properties are stripped, exactly if no two of them clash. */
  lemma StrippingKeepsAllIff(properties: map<string, Value>)
    requires forall k | k in properties :: Local(k).Some?
    ensures (forall stripped, k | IsStripped(properties, stripped) && k in properties :: Kept(properties, stripped, k))
            <==> NoClash(properties)
  {
    hide Local;
    if NoClash(properties) {
      forall stripped, k | IsStripped(properties, stripped) && k in properties ensures Kept(properties, stripped, k) {
        var j :| j in properties && Local(j) == Local(k) && stripped[Local(k).value] == properties[j];
      }
    } else {
      var i, j :| i in properties && j in properties && Local(i) == Local(j) && properties[i] != properties[j];
      var stripped := SomeStripped(properties);
      assert !Kept(properties, stripped, i) || !Kept(properties, stripped, j);
    }
  }

  ghost predicate IsPayload(config: ProducerConfig, ctx: Context, e: Entity, p: Payload) {
    if config.stripProps then
        p.Stripped? && Local(e.id) == Some(p.id) && p.isDeleted == e.isDeleted && IsStripped(e.properties, p.props)
    else p == Whole(e, ctx.namespaces)
  }

  function KeyOf(config: ProducerConfig, e: Entity): MessageKey {
    match config.key
    case None => NoKey
    case Some(kind) => if kind == "id" then Key(e.id) else if kind == "uuid" then RandomKey else NoKey
  }

  lemma KeyIs(config: ProducerConfig, e: Entity)
    ensures config.key == Some("id") ==> KeyOf(config, e) == Key(e.id)
    ensures config.key == Some("uuid") ==> KeyOf(config, e) == RandomKey
    ensures config.key != Some("id") && config.key != Some("uuid") ==> KeyOf(config, e) == NoKey
  {
  }

  ghost predicate IsMessage(config: ProducerConfig, ctx: Context, e: Entity, m: Message) {
    m.key == KeyOf(config, e) && IsPayload(config, ctx, e, m.payload)
  }

  predicate Sendable(config: ProducerConfig, entities: seq<Entity>) {
    config.stripProps ==> forall i | 0 <= i < |entities| :: Strippable(entities[i])
  }

  ghost predicate AreMessages(config: ProducerConfig, ctx: Context, entities: seq<Entity>, messages: seq<Message>) {
    |messages| == |entities| && forall i | 0 <= i < |entities| :: IsMessage(config, ctx, entities[i], messages[i])
  }

  function ConfigFor(configs: seq<ProducerConfig>, dataset: string): (r: Option<ProducerConfig>)
    ensures r.Some? ==> r.value in configs && r.value.dataset == dataset
    ensures r.None? ==> forall c | c in configs :: c.dataset != dataset
  {
    if configs == [] then None
    else if configs[0].dataset == dataset then Some(configs[0])
    else ConfigFor(configs[1..], dataset)
  }

  /** The configuration at index `i` is the first of the dataset. */
  predicate IsFirstFor(configs: seq<ProducerConfig>, dataset: string, i: nat) {
    i < |configs| && configs[i].dataset == dataset && forall j | 0 <= j < i :: configs[j].dataset != dataset
  }

  /** Of several configurations of a dataset the first one counts. */
  lemma {:induction false} FirstConfigCounts(configs: seq<ProducerConfig>, dataset: string, i: nat)
    requires IsFirstFor(configs, dataset, i)
    ensures ConfigFor(configs, dataset) == Some(configs[i])
  {
    if i > 0 {
      assert configs[0].dataset != dataset;
      FirstConfigCounts(configs[1..], dataset, i - 1);
    }
  }

  datatype Verdict = Accepted | Rejected | Panicked

  /**
   * The producers with their cached writers; `accepts` decides the n-th write, and `written` lists
   * the accepted ones by topic.
   */
  class Producers {
    const configs: seq<ProducerConfig>
    const accepts: nat -> bool
    var writers: map<string, string>
    var attempts: nat
    var written: seq<(string, seq<Message>)>

    constructor (configs: seq<ProducerConfig>, accepts: nat -> bool)
      ensures this.configs == configs && this.accepts == accepts && Valid() && attempts == 0 && written == []
    {
      this.configs, this.accepts, writers, attempts, written := configs, accepts, map[], 0, [];
    }

    /** A cached writer has the topic of its dataset. */
    predicate Valid()
      reads this
    {
      forall d | d in writers :: ConfigFor(configs, d).Some? && ConfigFor(configs, d).value.topic == writers[d]
    }

    /** The properties under their local names, the map walked in any order. */
    method StripProps(e: Entity) returns (payload: Option<Payload>)
      ensures payload.Some? <==> Strippable(e)
      ensures payload.Some? ==> payload.value.Stripped? && Local(e.id) == Some(payload.value.id)
                                && payload.value.isDeleted == e.isDeleted
                                  && IsStripped(e.properties, payload.value.props)
    {
      var id := Local(e.id);
      if id.None? {
        return None;
      }
      var single: map<string, Value> := map[];
      var rest := e.properties.Keys;
      while rest != {}
        invariant rest <= e.properties.Keys
        invariant forall k | k in e.properties && k !in rest :: Local(k).Some? && Local(k).value in single
        invariant forall n | n in single :: exists k ::
                  k in e.properties && Local(k) == Some(n) && single[n] == e.properties[k]
        decreases |rest|
      {
        var k :| k in rest;
        var n := Local(k);
        if n.None? {
          return None;
        }
        single := single[n.value := e.properties[k]];
        rest := rest - {k};
      }
      return Some(Stripped(id.value, e.isDeleted, single));
    }

    /** One message for each entity, in order. */
    method Marshal(config: ProducerConfig, ctx: Context, entities: seq<Entity>) returns (data: Option<seq<Message>>)
      ensures data.Some? <==> Sendable(config, entities)
      ensures data.Some? ==> AreMessages(config, ctx, entities, data.value)
    {
      var messages: seq<Message> := [];
      for i := 0 to |entities|
        invariant Sendable(config, entities[..i])
        invariant AreMessages(config, ctx, entities[..i], messages)
      {
        var payload := Some(Whole(entities[i], ctx.namespaces));
        if config.stripProps {
          payload := StripProps(entities[i]);
          if payload.None? {
            return None;
          }
        }
        messages := messages + [Message(KeyOf(config, entities[i]), payload.value)];
      }
      assert entities[..|entities|] == entities;
      return Some(messages);
    }

    method ProduceEntities(dataset: string, ctx: Context, entities: seq<Entity>)
      returns (verdict: Verdict, ghost messages: seq<Message>)
      requires Valid()
      modifies this
      ensures Valid()
      ensures var config := ConfigFor(configs, dataset);
              if config.None? || !Sendable(config.value, entities) then
                verdict == Panicked && written == old(written) && attempts == old(attempts)
              else
                && attempts == old(attempts) + 1
                && verdict == (if accepts(old(attempts)) then Accepted else Rejected)
                && AreMessages(config.value, ctx, entities, messages)
                && written == if accepts(old(attempts)) then old(written) + [(config.value.topic, messages)]
                  else old(written)
    {
      messages := [];
      var config := ConfigFor(configs, dataset);
      if config.None? {
        return Panicked, messages;
      }
      if dataset !in writers {
        writers := writers[dataset := config.value.topic];
      }
      var topic := writers[dataset];
      var data := Marshal(config.value, ctx, entities);
      if data.None? {
        return Panicked, messages;
      }
      messages := data.value;
      verdict := if accepts(attempts) then Accepted else Rejected;
      attempts := attempts + 1;
      if verdict == Accepted {
        written := written + [(topic, data.value)];
      }
    }
  }
}
