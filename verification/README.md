# Kafka datalayer: a verified model

The datalayer publishes Kafka topics as datasets that are read page by page, and writes datasets
to topics. This project models its stateful core in Dafny and proves what that core promises.
`dafny verify dfyconfig.toml` checks everything.

**The change feed.** A request brings an opaque `since` token. The handler rewinds the consumer
group to it, polls until the limit, depletion, an error or cancellation, emits one entity for each
record, and returns a new token. The token lists only partitions that have delivered something, so
what has been delivered is known only from the token and the committed offsets together.

| file | what it models |
|---|---|
| `Decimal`, `Base64`, `TokenJson`, `SinceToken` | the token codec: decimal integers, base64 (section 4 of RFC 4648), the JSON of a token (RFC 8259), and the map in between |
| `Topic` | the broker: append-only logs with gaps, committed offsets, positions, polls |
| `ChangeFeed` | `ChangeSet`, as the class `Consumer`; `Serve` is one request as a function of broker, token and environment |
| `Paging`, `Chains` | one request against the logs; any chain of requests, with failures, lost responses and appends at any time |
| `PollBounds` | how long a poll loop lasts, and why it ends |
| `ForeignTokens` | tokens that are not the latest one of a chain |
| `ResponseArray`, `ReservedId` | the JSON array that a request is answered with; records under the id of continuations |
| `RunRegistry` | the `running` map, as a state machine over the steps of interleaved requests |

**Entities.** `Document` has JSON values and their leaves. `Writes` has what a leaf writes to an
entity, and the walks: the sequences of writes that the maps of a document allow, with array items
in the order of the array. `Encoder` has the class `EntityEncoder`, whose recursion changes one
entity in place; its methods are proved to make the writes of a walk. `WalkOrder` has the writes
that can come last, `Outcomes` the entities that a document and its headers can be encoded as, and
`EntityFacts` what the writes come to.

**Producing.** `Producing` has the parsing of entities and contexts, the stripping of namespaces
and the messages; `Batching` has the callback that cuts a stream into batches of ten thousand.

**Configuration.** `ConfigManager` has the reload, as a class and over whole runs.

The environment is a finite script that decides, round by round, what the log looks like, whether
a signal or a cancellation is waiting, and what the poll returns; after the script nothing happens
any more. Path queries, formatting, digests and JSON parsing of whole documents are function
parameters: the same arguments give the same result, and nothing else is used. False as the `ok`
of an encoder method, `None` from a parser and `Crashed` as a status stand for a Go panic.

## Findings

- A token that is not the latest one can skip records: the rewind leaves partitions outside the
  token where they are. `ResumesIff` says exactly when every request with a token delivers the
  records that follow it; `OlderTokenSkips` is a client that goes back to its first token and is
  given the second record of a partition before the first. The repository's README.md:178-180 asks for one client, but
  does not say that this client must not go back to an older token.
- A token that points beyond the end of a log makes the broker start over, and the next token can
  move back. `NeverMovesBackIff`: this is possible from the log end on, or, in a log without
  records, behind its end.
- The encoder walks maps in random order, and the entity can depend on it: two names that make one
  dotted address are enough (`DotsLetOrderMatter`), and with `includeHeaders` two headers that are
  mapped to different ids, even on an empty document (`HeadersLetOrderMatter`).
  `OneOutcomeWithHeadersIff` and `OneOutcomeIff` say exactly when it does not: when no place of the
  entity has two different writes that can come last. A document that panics has no outcome at all
  (`SomeOutcomeIff`). The order within an array is settled (`LastItemCounts`).
- A record that is encoded under the id `@continuation` is written as a continuation without its
  properties, and the array then holds two (`ReservedKeyIsTakenForAToken`). `OneContinuationIff`
  gives the exact condition; a base namespace that `@continuation` does not begin with rules it out
  (`NamespaceKeepsClear`).
- The registry does not keep two requests of a group apart by itself: a request must not check while
  another one of the group is between check and registration, and no cleanup may delete the entry
  of a live run; the code ensures neither. `StepIsExclusiveIff` and `OrderlyIff`: these two
  conditions are exactly those under which every state on the way stays safe, whatever orderly
  steps follow. Both situations are reached (`BothOccur`).
- If the first load of the configuration fails, the manager is left without any configuration, not
  with the empty one it was made with (`ConfigurationManager.constructor`, internal/conf/manager.go:48).
  `KeepsLastGood`: there is no configuration exactly as long as no content has parsed.
- A stream that breaks off at a value that is no entity loses the entities collected since the last
  full batch, while the batches before it stay written (`BrokenStreamKeepsFullBatches`).
- A limit of zero lets one record through, so exactly the limits from one on are kept
  (`LimitIsKeptIff`); every negative limit is no limit.
- An undecodable record is emitted and counted, and the token moves past it; it is always the last
  one of its page, interrupted or not (`UndecodableComesLast`).

Where code and documentation disagree the model follows the code: README.md:182 offers
`position=latest`, but the consumer always starts at the earliest record (internal/kafka/consumer.go:144);
README.md:239 lists `includeHeaders` with the field mappings, but it belongs to the consumer
(internal/kafka/consumer.go:238); README.md:107 says that entities are written unmodified, but
references are never read (internal/coder/parser.go:40-61).

## Model

| member | source | states |
|---|---|---|
| Decimal.ItoaRoundTrip | internal/kafka/consumer.go:350-375 | every integer of a width, negative and extreme ones included, is read back from its decimal form |
| Decimal.ItoaIff | internal/kafka/consumer.go:351 | a printed integer is its digits, each counted by its place, without leading zeros and with a minus sign if negative |
| Decimal.ParseIntIff | internal/kafka/consumer.go:369 | exactly the numerals of the width are read, as the number that their digits stand for |
| Base64.RoundTrip | internal/kafka/consumer.go:355-368 | decoding undoes encoding for every byte string, with and without padding |
| Base64.ValueIff | internal/kafka/consumer.go:355-365 | the characters are those of table 1 of RFC 4648, by their place |
| Base64.QuantumIsNumber | internal/kafka/consumer.go:355 | a quantum is the number of its bytes in base 256, written in base 64 with these characters, padded where bytes are missing |
| Base64.QuantumAt | internal/kafka/consumer.go:355 | the quanta come in order, one for every three bytes |
| Base64.DecodeQuantumIff | internal/kafka/consumer.go:365 | what a quantum decodes to, by its number, and which quanta are refused |
| Base64.DecodeIff | internal/kafka/consumer.go:365-368 | a text decodes exactly if all its quanta do, with padding in the last one only, and to what they give in order |
| TokenJson.ObjectRoundTrip | internal/kafka/consumer.go:351-369 | parsing undoes printing for the objects that tokens are made of |
| TokenJson.ParseObjectIff | internal/kafka/consumer.go:369-372 | exactly the objects are read that consist of quoted names, colons and values with commas between them in braces, as these members |
| SinceToken.TokenRoundTrip | internal/kafka/consumer.go:350-375 | for every map from int32 to int64 and every order of walking it, the token decodes to that map |
| SinceToken.TokenIsCanonical | internal/kafka/consumer.go:350-357 | the token does not depend on the order in which the map is walked |
| SinceToken.SinceInjective | internal/kafka/consumer.go:350-375 | two tokens are equal exactly if the maps are |
| SinceToken.SinceIsQuerySafe | internal/kafka/consumer.go:355 | no token has a `+` or a `/`, so a query string gives it back unchanged |
| SinceToken.TextIs | internal/kafka/consumer.go:350-357 | the text under the base64 is the object of the partitions and offsets in decimal, one member each, sorted by name |
| SinceToken.BeforeIff | internal/kafka/consumer.go:351 | the order of the names is that of their first different character |
| SinceToken.JsonIntegerIff | internal/kafka/consumer.go:369 | values are read that are printed integers, or a zero with a minus sign |
| SinceToken.ToOffsetsIff | internal/kafka/consumer.go:369-373 | members are read as a map exactly if all of them can be read, and the last one for a partition counts |
| SinceToken.DecodeSinceIs | internal/kafka/consumer.go:359-375 | base64 of such an object is read as its map, and everything else as no token |
| SinceToken.KnownToken | internal/kafka/consumer.go:350-357 | the token of `{0: 0}`, letter by letter |
| SinceToken.MarshalSince | internal/kafka/consumer.go:350-357 | walking the map in any order gives the one token of the map, whose text `TextIs` and `Base64.QuantumIsNumber` spell out |
| ChangeFeed.Loop | internal/kafka/consumer.go:213-280 | the poll loop ends against every environment that falls silent at last |
| ChangeFeed.Consumer.ResetOffsets | internal/kafka/consumer.go:309-348 | commits one past the token in its partitions, or zero in all partitions if it is empty, and nothing else; fails when the metadata or the commit fails |
| ChangeFeed.Consumer.CarryOver | internal/kafka/consumer.go:283-287 | partitions of the request that delivered nothing keep their offset, delivered ones take the new one |
| ChangeFeed.Consumer.PollLoop | internal/kafka/consumer.go:195-280 | the loop over its variables refines `Loop`: output, count, offsets and positions are those of the function that the lemmas are about |
| ChangeFeed.Consumer.ChangeSet | internal/kafka/consumer.go:179-307 | a whole request refines `Serve`: committed offsets, emitted records, continuation and failure |
| ChangeFeed.FaultsFail | internal/kafka/consumer.go:117-190 | a request that fails before the loop hands out nothing, and commits just what its fault let through |
| Paging.TracksNext | internal/kafka/consumer.go:225-230 | a record that is received is the one behind those already received of its partition, and its offset becomes that of the token |
| Paging.StepKeeps | internal/kafka/consumer.go:213-280 | every round, with appends, keeps it that each partition has delivered an unbroken stretch from the start position on |
| Paging.LoopKeeps | internal/kafka/consumer.go:213-280 | the same over whole requests |
| Chains.RewindReachesFrontier | internal/kafka/consumer.go:309-348 | after a rewind the group stands one past the token in every partition of the token, however it stood there before, and at zero in every other; outside a token that is not empty it must have stood at zero already, which chains keep |
| Chains.ServeMoves | internal/kafka/consumer.go:179-307 | a request delivers per partition exactly the records between its token and the token it returns |
| Chains.ActKeepsConsistent | internal/kafka/consumer.go:115-307 | requests, failed and lost ones too, and appends keep token, committed offsets and delivered records in agreement |
| Chains.ChainIsConsistent | internal/kafka/consumer.go:115-307 | the agreement holds in every state of every chain |
| Chains.ExactlyOnce | internal/kafka/consumer.go:179-307 | over any chain, what was accepted of a partition is a prefix of its log, without gap or repetition, as long as the token says |
| Chains.ChainRewinds | internal/kafka/consumer.go:309-348 | in every state of a chain a rewind commits token + 1 in the partitions of the token and leaves all others at zero |
| Chains.TokenNeverMovesBack | internal/kafka/consumer.go:282-288 | along a chain no token loses a partition or moves back in one |
| Chains.RetryStartsAtTheSameFrontier | internal/kafka/consumer.go:309-323 | after a lost response the old token reads every partition from the same position again |
| PollBounds.RunIsBounded | internal/kafka/consumer.go:213-280 | at most ten empty polls, one after the first message, max(1, limit) messages, one round after cancellation |
| PollBounds.LimitIsKeptIff | internal/kafka/consumer.go:245-248 | no run emits more than the limit, exactly if the limit is at least one |
| PollBounds.UndecodableComesLast | internal/kafka/consumer.go:231-248 | in every run, interrupted or not, only the last record of the page can be undecodable |
| PollBounds.RunEndsForAReason | internal/kafka/consumer.go:213-280 | without a signal or a foreign cancellation, a run ends at the limit or for a decoding error, a lost cluster, depletion or ten empty polls |
| PollBounds.SilentRunGivesUp | internal/kafka/consumer.go:262-271 | where nothing arrives the run polls exactly ten times and emits nothing |
| ForeignTokens.ResumesIff | internal/kafka/consumer.go:309-323 | every request with a token, whatever its limit and events, delivers per partition the records between that token and the one it returns, exactly if the token lies inside the log and the group has passed no record of a partition outside the token |
| ForeignTokens.OlderTokenSkips | internal/kafka/consumer.go:309-323 | a client that goes back to an earlier token of its own, and what it is then given of a partition is no prefix of the log |
| ForeignTokens.NeverMovesBackIff | internal/kafka/consumer.go:144-144 | no run moves a partition of the token back exactly if the token lies below the log end, or at the end of a log without records |
| ForeignTokens.TokenKeepsPartitions | internal/kafka/consumer.go:282-288 | whatever the token, the next one has all its partitions |
| ForeignTokens.ContinuationIs | internal/kafka/consumer.go:282-304 | without a record the token comes back letter by letter; otherwise it has the last offset of every partition that delivered and the old one of every other |
| ResponseArray.ResponseWriter.Deliver | internal/web/consumerhandler.go:71-85 | the values come in the order of the calls |
| ResponseArray.ResponseWriter.Consume | internal/web/consumerhandler.go:50-94 | an unknown dataset gives 404 and touches nothing; otherwise the body parses as the context, the encoded record in every place of a record that is not under the reserved id, and a continuation with the token of the request |
| ResponseArray.ParseArrayIff | internal/web/consumerhandler.go:59-92 | a reader that follows section 5 of RFC 8259 accepts exactly brackets around items with a comma in front of every item but the first |
| ResponseArray.BodyParses | internal/web/consumerhandler.go:59-92 | the pieces written form one array of exactly the items |
| ResponseArray.ContinuationComesLast | internal/kafka/consumer.go:282-306 | a request that ends properly has a continuation exactly if it emitted a record or was given a token, and it comes last |
| ResponseArray.OneContinuationOnPage | internal/web/consumerhandler.go:72-80 | a reader finds at most one continuation exactly if no record of the page is encoded under the reserved id |
| ReservedId.OneContinuationIff | internal/web/consumerhandler.go:72-80 | no request with a token is answered with two continuations exactly if no record of the log that it can get to is encoded under the reserved id |
| ReservedId.NamespaceKeepsClear | internal/coder/encoder.go:123-127 | a base namespace that the reserved id does not begin with keeps every record, with headers or without, clear of that id |
| ReservedId.ReservedKeyIsTakenForAToken | internal/web/consumerhandler.go:72-80 | without a base namespace, a message whose key is the reserved id makes a response with two continuations |
| RunRegistry.CancelledForGood | internal/kafka/consumer.go:130-177 | in every interleaving a run once marked cancelled stays so, its context is cancelled and its consumer closed |
| RunRegistry.CheckStopsPredecessor | internal/kafka/consumer.go:129-137 | the check cancels the run that is registered for the group, closes its consumer unless it is marked, and touches no other |
| RunRegistry.StepChanges | internal/kafka/consumer.go:148-177 | the other steps change the run that makes them and the entry of its group only, and how |
| RunRegistry.OneLiveRun | internal/kafka/consumer.go:126-177 | with separate windows, and if no cleanup deletes the entry of a live run, at most one run of a topic and group is live |
| RunRegistry.StepIsExclusiveIff | internal/kafka/consumer.go:126-177 | a step keeps live runs exclusive and registered exactly if it meets these two conditions |
| RunRegistry.ExclusiveIff | internal/kafka/consumer.go:126-177 | a reachable state is exclusive exactly if no orderly continuation leads to two live runs of a group |
| RunRegistry.OrderlyIff | internal/kafka/consumer.go:126-177 | a whole run meets the two conditions exactly if every state on its way is safe in this sense |
| RunRegistry.OverlappingWindowsBreakIt | internal/kafka/consumer.go:129-164 | wherever two requests of a group are both between check and registration, both can come to run |
| RunRegistry.ForeignDeleteBreaksIt | internal/kafka/consumer.go:174-176 | wherever a cleanup is about to delete the entry of a live successor, a third request can come to run beside it |
| RunRegistry.BothOccur | internal/kafka/consumer.go:126-177 | both situations are reached from the empty registry |
| Document.DottedInjective | internal/coder/encoder.go:74-82 | dotted addresses of dot-free paths are unambiguous |
| Document.LeavesDoNotCollide | internal/coder/encoder.go:70-111 | different leaves of a dot-free document have different addresses, array indices included |
| Document.DottedConcat | internal/coder/encoder.go:74-82 | an address has its segments in order with a dot between any two |
| Document.ArrayLeafIff | internal/coder/encoder.go:88-108 | an array is stored as the typed slice of all its items in order, exactly if it holds only strings, only numbers or only booleans |
| Document.HomogeneousIff | internal/coder/encoder.go:89-107 | a type assertion fails exactly if an array begins with a scalar and has no such slice |
| Document.LeafAtIff | internal/coder/encoder.go:70-111 | the leaves are the parts of the document that are no objects, arrays as their slices |
| Document.PanicFreeIff | internal/coder/encoder.go:70-109 | encoding panics exactly if a type assertion fails for an array that the encoder finds |
| Encoder.EntityEncoder.constructor | internal/coder/encoder.go:19-26 | every mapped name is known, and the last mapping of a name counts |
| Encoder.EntityEncoder.StoreLeaf | internal/coder/encoder.go:110-142 | one leaf makes the writes of its mapping, in order, and no others |
| Encoder.EntityEncoder.FlattenFields | internal/coder/encoder.go:72-75 | in any order of the fields, the writes made are those of a walk; it gets through exactly if no type assertion fails |
| Encoder.EntityEncoder.FlattenItems | internal/coder/encoder.go:77-87 | the leaves of the objects in an array are stored under their index; tells whether there is anything else |
| Encoder.EntityEncoder.FlattenSlice | internal/coder/encoder.go:88-109 | an array is stored as the one typed value that `Document.ArrayLeafIff` describes, and it fails exactly if the array begins with a scalar and is mixed |
| Encoder.EntityEncoder.Flatten | internal/coder/encoder.go:70-144 | terminates on every tree, in spite of the call on an array of the same size; panics exactly on mixed arrays; makes the writes of a walk, one after the other |
| Encoder.EntityEncoder.Encode | internal/coder/encoder.go:28-43 | a new entity with the writes of a walk of the document, which are those of all its leaves |
| Encoder.EntityEncoder.CollectHeaders | internal/coder/encoder.go:56-60 | header names in lower case, the last duplicate counts |
| Encoder.EntityEncoder.EncodeWithHeaders | internal/coder/encoder.go:44-68 | what `Encode` gives, and then the writes of the headers |
| Writes.CoherentWritesCommute | internal/coder/encoder.go:70-144 | writes that do not disagree lead to one entity in every order |
| Writes.WalkWrites | internal/coder/encoder.go:70-144 | every walk makes the writes of all leaves, and no others |
| WalkOrder.WalkEnds | internal/coder/encoder.go:70-144 | what a walk writes last to a place is the last write of some field, or of the last array item that has any |
| WalkOrder.LastIsReached | internal/coder/encoder.go:70-144 | and each of these comes last in some walk |
| EntityFacts.LeavesArePaths | internal/coder/encoder.go:70-111 | the leaves that the recursion visits are exactly the scalars, nulls and scalar arrays of the document, by path |
| EntityFacts.TidyIsCoherent | internal/coder/encoder.go:110-142 | dot-free names, one id and one deleted mapping and distinct targets keep any two leaves from disagreeing, even if several share a mapping |
| EntityFacts.OrderDoesNotMatter | internal/coder/encoder.go:70-144 | every order of walking the maps of such a document ends in the same entity |
| Outcomes.OneOutcomeWithHeadersIff | internal/coder/encoder.go:44-68 | all orders of walking a document and then its headers end in one entity exactly if no place has two different writes that can come last, or the document cannot be encoded at all |
| Outcomes.OneOutcomeIff | internal/coder/encoder.go:28-43 | the same for a document without headers |
| Outcomes.SomeOutcomeIff | internal/coder/encoder.go:76-109 | a document has an outcome exactly if no type assertion fails in it |
| Outcomes.HeadersGiveOutcome | internal/coder/encoder.go:44-68 | what `EncodeWithHeaders` returns is an outcome of the document with its headers |
| Outcomes.HeadersLetOrderMatter | internal/coder/encoder.go:56-66 | a document that has one outcome without headers, and two ids for it with two headers |
| WalkOrder.LastItemCounts | internal/coder/encoder.go:78-87 | whatever place of the entity the items of an array write to, in every walk it is the last item with a write there that counts |
| Outcomes.OutcomeApplies | internal/coder/encoder.go:70-144 | whatever the order, the entity comes from the writes of all leaves |
| Outcomes.DotsLetOrderMatter | internal/coder/encoder.go:111-140 | a document with a dot in a name, and two outcomes of it with different values of one property |
| EntityFacts.LeavesAreStored | internal/coder/encoder.go:110-142 | every leaf is stored as its mapping says: ignored, id, deleted, reference and property, or plain property |
| EntityFacts.PartsAreStored | internal/coder/encoder.go:139-141 | an unmapped scalar or null is stored as it is, and an array as the slice of its items in order, under `ns0:` and the dotted address |
| EntityFacts.NothingElseIsStored | internal/coder/encoder.go:110-142 | every property, reference, id and deleted flag comes, with its value, from a leaf with the mapping for it; ignored names give nothing at any depth |
| EntityFacts.ExactWithoutMappings | internal/coder/encoder.go:139-141 | without mappings the properties are exactly the leaves, one for each, under `ns0:` and the dotted address |
| EntityFacts.LastHeaderCounts | internal/coder/encoder.go:57-60 | of several headers with one name in lower case the last one is kept |
| EntityFacts.HeaderMapIff | internal/coder/encoder.go:57-60 | the headers are exactly the names that occur, in lower case, each with its last value |
| EntityFacts.HeadersOverlay | internal/coder/encoder.go:56-66 | unmapped headers add their own properties under `ns0:kafka_header.`; every other property of the body, its references, id and deleted flag stay |
| ConfigManager.ConfigurationManager.constructor | internal/conf/manager.go:37-70 | the state after the first load, which may be no configuration |
| ConfigManager.ConfigurationManager.Load | internal/conf/manager.go:76-124 | the new configuration, digest, result and one notice for each listener, or nothing changed |
| ConfigManager.ContentIff | internal/conf/manager.go:76-101 | the text that a load works on: that of the file, what the envelope from the URL holds, or the empty one; none only if the connection fails |
| ConfigManager.LoadOfText | internal/conf/manager.go:103-123 | a text with a new digest that parses is in force with that digest, and every listener has one notice more; any other text changes nothing |
| ConfigManager.LoadFollows | internal/conf/manager.go:76-124 | a load that compares digests does what the plain rule "the last good content counts" does |
| ConfigManager.KeepsLastGood | internal/conf/manager.go:60-124 | over every run, configuration and digest are those of the last content that parsed, and each listener has had one notice for each change since it registered |
| Producing.AsContext | internal/coder/parser.go:21-38 | fails exactly on malformed contexts; the lookup leads from every namespace to one of its prefixes and nowhere else |
| Producing.NamespacesIff | internal/coder/parser.go:21-36 | a context is read exactly if it has an id and, if any, namespaces that are all strings, and as these |
| Producing.AsEntityIff | internal/coder/parser.go:40-61 | a posted value is read as the entity with its id, deleted flag, properties and, for a continuation, token; it fails exactly if they have other types or the id is missing |
| Producing.ReverseIsInverse | internal/coder/parser.go:30-36 | where no namespace has two prefixes, the lookup is the inverse map |
| Producing.LocalOfQualified | internal/coder/entity.go:33-38 | of a name with one colon the part behind it is kept |
| Producing.LocalIs | internal/coder/entity.go:33-38 | what is kept of any name ends behind its second colon, and without a colon nothing is |
| Producing.KeyIs | internal/kafka/producer.go:130-143 | the id, a random key, or none, by the setting |
| Producing.ConfigFor | internal/kafka/producer.go:145-152 | a configuration of that dataset, or none if there is none |
| Producing.FirstConfigCounts | internal/kafka/producer.go:145-152 | of several configurations of a dataset it is the first |
| Producing.Producers.StripProps | internal/coder/entity.go:31-42 | in any order of the map, all properties under local names; it fails exactly if some name has no colon |
| Producing.StrippingKeepsAllIff | internal/coder/entity.go:36-40 | every order of stripping keeps every property under its local name, exactly if properties with one local name have one value |
| Producing.Producers.Marshal | internal/kafka/producer.go:104-126 | one message for each entity, in order, with its key |
| Producing.Producers.ProduceEntities | internal/kafka/producer.go:84-128 | one write of exactly these messages to the topic of the dataset, recorded if and only if it is accepted; a panic writes nothing |
| Batching.ProducerHandler.WriteBatch | internal/web/producerhandler.go:61-66 | the next batch gets through exactly if it can be sent and is accepted |
| Batching.ProducerHandler.OnValue | internal/web/producerhandler.go:51-70 | a value is collected, and completes a batch at ten thousand; an error stops the stream there |
| Batching.ProducerHandler.OnFullBatch | internal/web/producerhandler.go:58-67 | a full batch is written at once, and a failure ends the request |
| Batching.ProducerHandler.Collect | internal/web/producerhandler.go:46-86 | after the context, all batches up to the first that fails are written, leftovers last |
| Batching.ProducerHandler.WriteLeftovers | internal/web/producerhandler.go:77-84 | at the end of the stream the collected rest is the last batch, and its fate decides the answer |
| Batching.ProducerHandler.Produce | internal/web/producerhandler.go:39-87 | status, batches written and values consumed are those of the outcome computed from the stream at once |
| Batching.BatchesPartition | internal/web/producerhandler.go:51-80 | the batches together are the entities in order, and the first of them a beginning |
| Batching.BatchSizes | internal/web/producerhandler.go:43-80 | one to ten thousand entities each, all but the last ten thousand, and ceil(n / 10000) of them |
| Batching.NothingIsLost | internal/web/producerhandler.go:39-87 | if every write of the request is accepted, the messages written are those of all entities, one each, in order |
| Batching.PostedArrive | internal/web/producerhandler.go:39-87 | from given entities, posted behind a context: one message for each, in order, made from that entity |
| Batching.MessageSays | internal/kafka/producer.go:104-126 | a message says all of its entity, or its deleted flag, id and properties without prefixes, and nothing else |
| Batching.RejectedIff | internal/web/producerhandler.go:72-84 | the request is turned down exactly if one of its writes is, at the first of them |
| Batching.OtherAnswers | internal/web/producerhandler.go:46-86 | the answers to an empty stream, a malformed context, a stream without entities and an unknown dataset |
| Batching.RejectionKeepsAPrefix | internal/web/producerhandler.go:61-83 | if a write is rejected, exactly the values up to the end of that batch have been consumed, and the messages written are those of the entities before it |
| Batching.BrokenStreamKeepsFullBatches | internal/web/producerhandler.go:51-75 | a stream that breaks off keeps its full batches and loses the rest |

## Left out

- Kafka clients, network, timers, sleeps, logging, metrics and wiring: their outcomes are parameters.
- Rebalances during a run, and retention or truncation of a log: logs only grow.
- Commits outside the log count as "earliest" on subscription; the special negative offsets of the client library are not told apart.
- Errors that the broker reports for single partitions of a commit, which the code ignores.
- Avro and protobuf decoding: a record either decodes or does not.
- gjson path syntax, `fmt` verbs and JSON parsing of whole documents: parameters.
- General JSON and base64: white space, escapes, line breaks in base64, and what a failed unmarshal has already put into the map. The model counts such a token as empty.
- Loop: the environment is a finite script followed by silence; message counts are unbounded integers, not int64.
- ExactlyOnce: is about clients that use the latest token they accepted; `ResumesIff` says what happens with others.
- Consume: the encoding of a record is a parameter, an encoder panic within the poll loop is not modelled, and what the callback is given is collected first and written afterwards.
- OneLiveRun: needs its two conditions, which the code does not ensure; the steps of a request are atomic between lock operations.
- ResumesIff: the log ends lie below the largest int64, so that a record can still be appended.
- LimitIsKeptIff: some partition has room for one more record.
- OneContinuationIff: nothing is appended during the request; the encoding of a record is a parameter, and `NamespaceKeepsClear` ties it to the encoder.
- KeepsLastGood: assumes that the contents of the run have different digests, none of them zero; notices are recorded when they are launched.
- ProduceEntities: a write is accepted or rejected as a whole; the random key of the `uuid` setting is only told apart from other keys, and payloads are structured values, not bytes.
- Produce: the configuration does not change during a run, so that a cached writer always has the topic of its dataset.
- The streaming JSON parser: a stream is the values it yields. Its errors are never looked at (internal/coder/parser.go:8-19), so a body with a syntax error counts as its values before the error.
- The parsing of the `limit` parameter, dataset listing, the namespaces of the context object, authorization and middleware.
