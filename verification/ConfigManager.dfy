/**
 * The configuration manager: it reloads its content from time to time, compares digests, and
 * keeps the last configuration that could be parsed.
 */
module ConfigManager {
  import opened Decimal
  import opened Options

  datatype KafkaConfig = KafkaConfig(id: string, producers: seq<string>, consumers: seq<string>)

  const EMPTY_CONFIG := KafkaConfig("", [], [])

  /** MD5 sums as numbers; a fresh `State` holds the all-zero one. */
  type Digest = int

  const ZERO_DIGEST: Digest := 0

  /** JSON decoding, unpacking of a content envelope, and the digest. */
  datatype Library = Library(parse: string -> Option<KafkaConfig>, unpack: string -> Option<string>,
                             digest: string -> Digest)

  /** What comes back from the configured location. */
  datatype Fetched =
    | FromFile(content: Option<string>)
    | UrlFailed
    | UrlRefused
    | FromUrl(envelope: string)

  /** The content that a load works on: none if the load gives up at once, empty if nothing was read. */
  function Content(lib: Library, fetched: Fetched): Option<string> {
    match fetched
    case FromFile(content) => Some(if content.Some? then content.value else "")
    case UrlFailed => None
    case UrlRefused => Some("")
    case FromUrl(envelope) => Some(if lib.unpack(envelope).Some? then lib.unpack(envelope).value else "")
  }

  /**
   * The manager as a value; listeners are known by the order of registration, and `notices` lists
   * the calls to them.
   */
  datatype Manager = Manager(datalayer: Option<KafkaConfig>, digest: Digest, listeners: nat,
                             notices: seq<(nat, Digest)>)

  function Notify(listeners: nat, d: Digest): (r: seq<(nat, Digest)>) {
    seq(listeners, i => (i, d))
  }

  /** A load: the manager afterwards, and what the call returns. */
  function LoadOf(lib: Library, m: Manager, fetched: Fetched): (Manager, Option<KafkaConfig>) {
    var content := Content(lib, fetched);
    if content.None? then (m, None) else
    var d := lib.digest(content.value);
    if d == m.digest then (m, m.datalayer) else
    var config := lib.parse(content.value);
    if config.None? then (m, None)
    else (Manager(config, d, m.listeners, m.notices + Notify(m.listeners, d)), config)
  }

  class ConfigurationManager {
    const lib: Library
    var datalayer: Option<KafkaConfig>
    var digest: Digest
    var listeners: nat
    var notices: seq<(nat, Digest)>

    /** A first load that fails leaves no configuration at all. */
    constructor (lib: Library, fetched: Fetched)
      ensures this.lib == lib
      ensures Value() == Started(lib, fetched)
    {
      this.lib := lib;
      datalayer, digest, listeners, notices := Some(EMPTY_CONFIG), ZERO_DIGEST, 0, [];
      new;
      var config := Load(fetched);
      datalayer := config;
    }

    function Value(): Manager
      reads this
    {
      Manager(datalayer, digest, listeners, notices)
    }

    method Load(fetched: Fetched) returns (config: Option<KafkaConfig>)
      modifies this
      ensures (Value(), config) == LoadOf(lib, old(Value()), fetched)
    {
      var content := Some("");
      match fetched {
        case FromFile(read) =>
          content := read;
        case UrlFailed =>
          return None;
        case UrlRefused =>
          content := None;
        case FromUrl(envelope) =>
          content := lib.unpack(envelope);
      }
      if content.None? {
        content := Some("");
      }
      var d := lib.digest(content.value);
      if d != digest {
        config := lib.parse(content.value);
        if config.None? {
          return;
        }
        datalayer := config;
        digest := d;
        for i := 0 to listeners
          invariant notices == old(notices) + Notify(i, d)
          invariant datalayer == config && digest == d && listeners == old(listeners)
        {
          notices := notices + [(i, d)];
        }
      }
      return datalayer;
    }

    method AddConfigUpdateListener()
      modifies this
      ensures Value() == old(Value()).(listeners := old(listeners) + 1)
    {
      listeners := listeners + 1;
    }
  }

  function Started(lib: Library, fetched: Fetched): Manager {
    var (m, config) := LoadOf(lib, Manager(Some(EMPTY_CONFIG), ZERO_DIGEST, 0, []), fetched);
    m.(datalayer := config)
  }

  /** What happens to a manager after its start. */
  datatype Event = Reload(fetched: Fetched) | Register

  function Run(lib: Library, first: Fetched, events: seq<Event>): Manager {
    if events == [] then Started(lib, first) else
    var m := Run(lib, first, events[..|events| - 1]);
    match events[|events| - 1]
    case Reload(fetched) => LoadOf(lib, m, fetched).0
    case Register => m.(listeners := m.listeners + 1)
  }

  /** The plain rule: the last content that can be parsed is the one in force. */
  function LastGood(lib: Library, first: Fetched, events: seq<Event>): Option<string> {
    if events == [] then Better(lib, None, first) else
    var before := LastGood(lib, first, events[..|events| - 1]);
    match events[|events| - 1]
    case Reload(fetched) => Better(lib, before, fetched)
    case Register => before
  }

  function Better(lib: Library, before: Option<string>, fetched: Fetched): Option<string> {
    var content := Content(lib, fetched);
    if content.Some? && lib.parse(content.value).Some? then content else before
  }

  function Registered(events: seq<Event>): nat {
    if events == [] then 0 else
    Registered(events[..|events| - 1]) + if events[|events| - 1].Register? then 1 else 0
  }

  /** The notices due to the `i`th listener: one for every change of the content in force since it registered. */
  function Due(lib: Library, first: Fetched, events: seq<Event>, i: nat): seq<Digest> {
    if events == [] then [] else
    var init := events[..|events| - 1];
    var before, after := LastGood(lib, first, init), LastGood(lib, first, events);
    Due(lib, first, init, i) + if after.Some? && after != before && i < Registered(init) then
      [lib.digest(after.value)] else []
  }

  /** The notices that the `i`th listener has had. */
  function Received(notices: seq<(nat, Digest)>, i: nat): seq<Digest> {
    if notices == [] then [] else
    var last := notices[|notices| - 1];
    Received(notices[..|notices| - 1], i) + if last.0 == i then [last.1] else []
  }

  lemma {:induction false} ReceivedConcat(a: seq<(nat, Digest)>, b: seq<(nat, Digest)>, i: nat)
    ensures Received(a + b, i) == Received(a, i) + Received(b, i)
  {
    if b == [] {
      assert a + b == a;
    } else {
      var init := b[..|b| - 1];
      ReceivedConcat(a, init, i);
      assert (a + b)[..|a + b| - 1] == a + init;
    }
  }

  lemma {:induction false} ReceivedNotify(n: nat, d: Digest, i: nat)
    ensures Received(Notify(n, d), i) == if i < n then [d] else []
  {
    if n > 0 {
      ReceivedNotify(n - 1, d, i);
      assert Notify(n, d)[..n - 1] == Notify(n - 1, d);
    }
  }

  ghost predicate Occurs(lib: Library, first: Fetched, events: seq<Event>, content: string) {
    Content(lib, first) == Some(content)
    || exists i :: 0 <= i < |events| && events[i].Reload? && Content(lib, events[i].fetched) == Some(content)
  }

  /** Among the contents of the run no two share a digest, and none has the digest of a fresh state. */
  ghost predicate NoCollisions(lib: Library, first: Fetched, events: seq<Event>) {
    && (forall c | Occurs(lib, first, events, c) :: lib.digest(c) != ZERO_DIGEST)
    && (forall c, d | Occurs(lib, first, events, c) && Occurs(lib, first, events, d) ::
        lib.digest(c) == lib.digest(d) ==> c == d)
  }

  /** The manager holds what the plain rule says. */
  ghost predicate Follows(lib: Library, m: Manager, good: Option<string>) {
    match good
    case None => m.datalayer == None && m.digest == ZERO_DIGEST
    case Some(c) => m.datalayer == lib.parse(c) && m.datalayer.Some? && m.digest == lib.digest(c)
  }

  lemma StillOccurs(lib: Library, first: Fetched, events: seq<Event>, c: string)
    requires events != [] && Occurs(lib, first, events[..|events| - 1], c)
    ensures Occurs(lib, first, events, c)
  {
    var init := events[..|events| - 1];
    if Content(lib, first) != Some(c) {
      var i :| 0 <= i < |init| && init[i].Reload? && Content(lib, init[i].fetched) == Some(c);
      assert events[i] == init[i];
    }
  }

  lemma {:induction false} LastGoodOccurs(lib: Library, first: Fetched, events: seq<Event>)
    ensures var good := LastGood(lib, first, events);
            good.Some? ==> Occurs(lib, first, events, good.value) && lib.parse(good.value).Some?
  {
    if events != [] {
      var init := events[..|events| - 1];
      LastGoodOccurs(lib, first, init);
      var good := LastGood(lib, first, events);
      if good.Some? && good == LastGood(lib, first, init) {
        StillOccurs(lib, first, events, good.value);
      }
    }
  }

  /** One load against the plain rule. */
  lemma LoadFollows(lib: Library, m: Manager, before: Option<string>, fetched: Fetched)
    requires Follows(lib, m, before)
    requires var c := Content(lib, fetched);
             c.Some? ==> lib.digest(c.value) != ZERO_DIGEST
                         && (before.Some? && lib.digest(before.value) == lib.digest(c.value) ==> before == c)
    ensures var (next, after) := (LoadOf(lib, m, fetched).0, Better(lib, before, fetched));
            && Follows(lib, next, after) && next.listeners == m.listeners
            && next.notices == m.notices + if after.Some? && after != before then
              Notify(m.listeners, lib.digest(after.value)) else []
  {
  }

  /**
   * Comparing digests comes to the same as the plain rule, over every run: the configuration and
   * the digest in force are those of the last good content, bad and missing content changes
   * nothing, and every listener has had exactly one notice for every change since it registered.
   */
  lemma {:induction false} KeepsLastGood(lib: Library, first: Fetched, events: seq<Event>)
    requires NoCollisions(lib, first, events)
    ensures var m := Run(lib, first, events);
            && Follows(lib, m, LastGood(lib, first, events))
            && m.listeners == Registered(events)
            && forall i: nat :: Received(m.notices, i) == Due(lib, first, events, i)
  {
    if events == [] {
      assert Content(lib, first).Some? ==> Occurs(lib, first, events, Content(lib, first).value);
    } else {
      var init, last := events[..|events| - 1], events[|events| - 1];
      forall c | Occurs(lib, first, init, c)
        ensures Occurs(lib, first, events, c)
      {
        StillOccurs(lib, first, events, c);
      }
      KeepsLastGood(lib, first, init);
      var m, before := Run(lib, first, init), LastGood(lib, first, init);
      if last.Reload? {
        LastGoodOccurs(lib, first, init);
        var content := Content(lib, last.fetched);
        assert content.Some? ==> Occurs(lib, first, events, content.value);
        assert before.Some? ==> Occurs(lib, first, events, before.value);
        LoadFollows(lib, m, before, last.fetched);
        hide LoadOf, Better, Occurs, Content, Follows, NoCollisions;
        var after := LastGood(lib, first, events);
        assert after == Better(lib, before, last.fetched) && Run(lib, first, events) == LoadOf(lib, m, last.fetched).0;
        forall i: nat ensures Received(Run(lib, first, events).notices, i) == Due(lib, first, events, i) {
          var more := if after.Some? && after != before then Notify(m.listeners, lib.digest(after.value)) else [];
          ReceivedConcat(m.notices, more, i);
          if more != [] {
            ReceivedNotify(m.listeners, lib.digest(after.value), i);
          }
        }
      }
    }
  }

  /**
   * What is fetched comes to this text: that of the file, what the envelope holds, or none if there
   * is nothing to read.
   */
  predicate ReadsAs(lib: Library, fetched: Fetched, text: string) {
    || fetched == FromFile(Some(text))
    || (fetched.FromUrl? && lib.unpack(fetched.envelope) == Some(text))
    || (text == "" && (fetched == FromFile(None) || fetched.UrlRefused?))
    || (text == "" && fetched.FromUrl? && lib.unpack(fetched.envelope) == None)
  }

  /** Only a failed connection gives nothing to work on. */
  lemma ContentIff(lib: Library, fetched: Fetched, text: string)
    ensures Content(lib, fetched) == Some(text) <==> ReadsAs(lib, fetched, text)
    ensures Content(lib, fetched) == None <==> fetched == UrlFailed
  {
  }

  /** A load of a text: nothing new, nothing good, or a new configuration and one notice for every listener. */
  lemma LoadOfText(lib: Library, m: Manager, fetched: Fetched, text: string)
    requires ReadsAs(lib, fetched, text)
    ensures var (next, config) := LoadOf(lib, m, fetched);
            if lib.digest(text) == m.digest then next == m && config == m.datalayer
            else if lib.parse(text) == None then next == m && config == None
            else
              && next.datalayer == config == lib.parse(text) && next.digest == lib.digest(text)
                && next.listeners == m.listeners
              && forall i: nat ::
                   Received(next.notices, i) == Received(m.notices, i) + if i < m.listeners then [lib.digest(text)]
                     else []
  {
    ContentIff(lib, fetched, text);
    forall i: nat
      ensures Received(m.notices + Notify(m.listeners, lib.digest(text)), i)
              == Received(m.notices, i) + if i < m.listeners then [lib.digest(text)] else []
    {
      ReceivedConcat(m.notices, Notify(m.listeners, lib.digest(text)), i);
      ReceivedNotify(m.listeners, lib.digest(text), i);
    }
  }

  lemma LoadOfNothing(lib: Library, m: Manager)
    ensures LoadOf(lib, m, UrlFailed) == (m, None)
  {
  }
}
