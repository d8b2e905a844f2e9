# OpenStreetMap graph builder: a Dafny model

This project models `COpenStreetMap` from `src/OpenStreetMap.cpp`. Its constructor makes one
pass over a stream of tokenized markup events. During the pass it keeps two cursors, the
node currently open (`currNode`) and the way currently open (`currWay`), and it fills two
lists, `nodeList` and `wayList`. The project also models the read-only query surface over the
finished map: counts, lookup by index, lookup by id, and the per-node and per-way accessors.

Modules:

- `Attributes`: the attribute dictionary of a node or way, as a `map<string, string>`.
  - `Put` fills it pair by pair, as `attrs[k] = v` does in the source.
  - `LastValue` and `Dict` are an independent, declarative description of the result: each key
    maps to the value of its last pair.
  - `KeyAt` is the dictionary's key enumeration. The order is unspecified but fixed, and
    every key appears exactly once.
- `Entities`: the node record (`SNodeImpl`) and the way record (`SWayImpl`), each a value with
  its accessors.
- `MapStore`: the finished map `StreetMap` with its queries. The by-id lookups are linear-scan
  methods, proved equal to the specification function `FirstWithId`.
- `MapBuilder`: the constructor.
  - `Step` is the effect of one event, `Run` folds it over a stream, and `Load` is the map
    a whole stream yields.
  - `BuildMap` is the imperative event loop with its two cursors. It is proved to return
    exactly `Load`.
  - The attribute loops of the `node`, `way`, `nd` and `tag` elements are methods too:
    `ReadNode`, `ReadWay`, `ReadRefs` and `ReadTag`.
- `BuilderTheorems`: what the builder does.
  - The effect of every kind of event, and the only events that are fatal.
  - What a node or way element contributes to the map.
  - That a document of well-formed elements yields exactly one stored entity per element, in
    closing order.
  - That an element left open at the end of the stream is never published.
  - That a malformed number aborts the whole construction.
- `SampleDocument`: the document of the repository's constructor tests, with decimal-text
  stand-ins for the number conversions.
  - It proves the values those tests check.
  - It proves that the invalid lookups find nothing.
  - It proves that a node with `id="abc"` makes the load fail.

The markup tokenizer (`CXMLReader`) is not part of this model. Its output is a parameter: a
`seq<Event>` of start markers (a name and an ordered list of attribute pairs), end markers and
character data. The number conversions `std::stoull` and `std::stod` are parameters as well:
partial functions `string -> Option<…>`, bundled in `Parsers`. When a conversion has no value,
the source's exception escapes the constructor and no map exists. The model returns
`Failure(BadNumber(element, attribute, text))` instead.

Where the documented intent of the repository and its code differ, the model follows the code:

- **Dictionary order.** The dictionaries are `std::unordered_map`, so `GetAttributeKey(i)`
  walks hash order, not insertion order. The model claims only that indices
  `0 .. AttributeCount()-1` enumerate each key exactly once.
- **Reserved keys.** These can appear as dictionary entries, because only the inline `id`,
  `lat` and `lon` of a `node` and the inline `id` of a `way` are consumed. An inline `k`, `v`
  or `ref` on a node or way is stored under its own name. A `tag` whose key is `id`, `lat` or
  `lon` is stored too.
- **Error detail.** The failure carries the element, the attribute and the text only as the
  model's own description. The source throws whatever `std::stoull` / `std::stod` throw.

## Model

| member | source | states |
|---|---|---|
| MapBuilder.BuildMap | src/OpenStreetMap.cpp:99-207 | The event loop with its two cursors yields exactly `Load(events, p)`: the two lists of closed entities, or the first conversion failure |
| MapBuilder.Step | src/OpenStreetMap.cpp:109-206 | One event publishes at most one entity, only appends to the lists (what is published never changes), and never leaves a node and a way open together |
| MapBuilder.Run | src/OpenStreetMap.cpp:109-206 | Over a stream, the published lists only grow by appending, by at most one entity per event, and at most one entity is open at a time |
| MapBuilder.ReadNode | src/OpenStreetMap.cpp:120-136 | The attribute loop of a `node` start marker computes `NodeAttrs` on a fresh node, failing at the first unconvertible `id`/`lat`/`lon` |
| MapBuilder.ReadWay | src/OpenStreetMap.cpp:145-153 | The attribute loop of a `way` start marker computes `WayAttrs` on a fresh way, failing at the first unconvertible `id` |
| MapBuilder.ReadRefs | src/OpenStreetMap.cpp:159-163 | The attribute loop of an `nd` start marker computes `Refs`: it appends each `ref` value in order and fails at the first unconvertible one |
| MapBuilder.ReadTag | src/OpenStreetMap.cpp:167-178 | The attribute loop of a `tag` start marker computes `TagEntry` from `("", "")` |
| BuilderTheorems.NodeAttrsSpec | src/OpenStreetMap.cpp:120-136 | The node attribute loop succeeds exactly when every `id`, `lat` and `lon` converts. The last of each then sets the field (else it is unchanged) and every other inline pair is stored with `Put` |
| BuilderTheorems.WayAttrsSpec | src/OpenStreetMap.cpp:145-153 | The way attribute loop succeeds exactly when every `id` converts. The last one sets the id, references are untouched, and every other inline pair is stored |
| BuilderTheorems.RefsSpec | src/OpenStreetMap.cpp:159-163 | The `nd` loop succeeds exactly when every `ref` converts, and then appends all of them in stream order, repeats kept |
| BuilderTheorems.TagEntrySpec | src/OpenStreetMap.cpp:167-178 | A `tag` yields its last `k` and last `v` in either order, each defaulting to the starting value when absent |
| BuilderTheorems.StepFailure | src/OpenStreetMap.cpp:111-164 | An event aborts the construction exactly when it is a `node` or `way` start with an unconvertible number, or an `nd` start inside an open way with an unconvertible `ref` |
| BuilderTheorems.StepStartNode | src/OpenStreetMap.cpp:114-136 | A `node` start opens a fresh node and drops any open way. The id and location come from the last `id`/`lat`/`lon` (0 when absent), the dictionary is `Dict` of the other inline pairs, and nothing is published |
| BuilderTheorems.StepStartWay | src/OpenStreetMap.cpp:140-153 | A `way` start opens a fresh way with no references and drops any open node. The id comes from the last `id` (0 when absent) and the dictionary holds the other inline pairs |
| BuilderTheorems.StepNd | src/OpenStreetMap.cpp:156-164 | An `nd` inside an open way appends its converted `ref` values to the end of that way's references and changes nothing else |
| BuilderTheorems.StepTag | src/OpenStreetMap.cpp:166-190 | A `tag` with a non-empty key sets `key -> value` on the open node, otherwise on the open way, and changes nothing else. The attribute count grows by one for a new key and stays the same for a repeated one |
| BuilderTheorems.StepIgnored | src/OpenStreetMap.cpp:109-206 | Character data, unknown elements, an `nd` with no open way, a `tag` with an empty key or no open entity, and end markers that match nothing open all leave the state unchanged and are not errors |
| BuilderTheorems.StepEnd | src/OpenStreetMap.cpp:193-205 | The end of the open `node`/`way` appends it to the end of its list exactly once and clears the cursor |
| BuilderTheorems.RunAppend | src/OpenStreetMap.cpp:109-206 | Running `a + b` is running `a`, then `b` from where `a` stopped. A failure in `a` is final |
| BuilderTheorems.NodeBody | src/OpenStreetMap.cpp:166-190 | Inside an open node, the children only store their tag pairs on that node, in stream order |
| BuilderTheorems.WayBody | src/OpenStreetMap.cpp:156-190 | Inside an open way, the children append all their `nd` references in stream order and store their tag pairs on that way |
| BuilderTheorems.OpeningRun | src/OpenStreetMap.cpp:114-190 | With nothing open, the opening of a well-formed element leaves exactly the entity it describes open and publishes nothing |
| BuilderTheorems.ElementRun | src/OpenStreetMap.cpp:109-206 | A well-formed element appends exactly the entity it describes to the end of its list and leaves nothing open |
| BuilderTheorems.DocumentRun | src/OpenStreetMap.cpp:109-206 | A sequence of well-formed elements appends their entities to the lists, in element order |
| BuilderTheorems.Document | src/OpenStreetMap.cpp:99-207 | A document of well-formed elements loads to exactly one stored node per node element and one stored way per way element, in closing order, each as its element describes it |
| BuilderTheorems.Truncated | src/OpenStreetMap.cpp:193-206 | A node or way still open when the stream ends is never published: the map is the one without that element |
| BuilderTheorems.MalformedNodeAborts | src/OpenStreetMap.cpp:120-131 | A `node` start with an unconvertible `id`/`lat`/`lon` makes the whole load fail, whatever precedes or follows it |
| BuilderTheorems.ParseAll | src/OpenStreetMap.cpp:159-163 | The converted reference values: one per text, in order, each the conversion's value |
| MapStore.StreetMap.NodeCount | src/OpenStreetMap.cpp:213-215 | The number of stored nodes |
| MapStore.StreetMap.WayCount | src/OpenStreetMap.cpp:218-220 | The number of stored ways |
| MapStore.StreetMap.NodeByIndex | src/OpenStreetMap.cpp:223-228 | Present exactly when `index < NodeCount()`, and then it is the `index`-th stored node; otherwise null |
| MapStore.StreetMap.WayByIndex | src/OpenStreetMap.cpp:241-246 | Present exactly when `index < WayCount()`, and then it is the `index`-th stored way; otherwise null |
| MapStore.StreetMap.NodeByID | src/OpenStreetMap.cpp:231-238 | The scan returns null exactly when no stored node has the id, and otherwise the stored node at the earliest index with that id |
| MapStore.StreetMap.WayByID | src/OpenStreetMap.cpp:249-256 | The scan returns null exactly when no stored way has the id, and otherwise the stored way at the earliest index with that id |
| MapStore.FirstWithIdSpec | src/OpenStreetMap.cpp:231-238 | First-match search misses exactly when no element has the id, and otherwise finds one at an index with no earlier match |
| Entities.Node.AttributeCount | src/OpenStreetMap.cpp:30 | The number of distinct keys in the node's dictionary |
| Entities.Node.GetAttributeKey | src/OpenStreetMap.cpp:33-40 | Below `AttributeCount()`, a key the node has; at or above it, `""` |
| Entities.Node.HasAttribute | src/OpenStreetMap.cpp:43 | True exactly when the key is in the node's dictionary |
| Entities.Node.GetAttribute | src/OpenStreetMap.cpp:46-49 | The stored value when the key is present, `""` when it is absent |
| Entities.Way.NodeCount | src/OpenStreetMap.cpp:61 | The number of node references |
| Entities.Way.GetNodeID | src/OpenStreetMap.cpp:64-70 | The `index`-th reference when `index < NodeCount()`, `InvalidNodeID` otherwise |
| Entities.Way.AttributeCount | src/OpenStreetMap.cpp:73 | The number of distinct keys in the way's dictionary |
| Entities.Way.GetAttributeKey | src/OpenStreetMap.cpp:76-83 | Below `AttributeCount()`, a key the way has; at or above it, `""` |
| Entities.Way.HasAttribute | src/OpenStreetMap.cpp:86 | True exactly when the key is in the way's dictionary |
| Entities.Way.GetAttribute | src/OpenStreetMap.cpp:89-95 | The stored value when the key is present, `""` when it is absent |
| Attributes.KeyAtEnumerates | src/OpenStreetMap.cpp:33-40 | Indices `0 .. count-1` give pairwise distinct keys, and every key of the dictionary is given by some index |
| Attributes.Enumeration | src/OpenStreetMap.cpp:35-36 | The dictionary's iteration sequence lists each key exactly once and nothing else |
| Attributes.KeyAt | src/OpenStreetMap.cpp:76-83 | The key at an in-range index is in the dictionary; an index out of range gives `""` |
| Attributes.ValueOr | src/OpenStreetMap.cpp:89-95 | The stored value for a present key, `""` for an absent one |
| Attributes.PutFind | src/OpenStreetMap.cpp:134 | Storing pairs one by one leaves each key with the value of its last pair, or its previous value when no pair has that key |
| Attributes.PutAppend | src/OpenStreetMap.cpp:166-190 | Storing `a` and then `b` is storing `a + b` |
| Attributes.PutIsDict | src/OpenStreetMap.cpp:120-136 | Filling an empty dictionary pair by pair gives exactly the declarative dictionary `Dict` |
| Attributes.DictSize | src/OpenStreetMap.cpp:30 | The dictionary has one entry per distinct key: repeated keys overwrite and do not add entries |
| Attributes.LastValueFound | src/OpenStreetMap.cpp:120-136 | A key has a last value exactly when it occurs, and that value belongs to one of its pairs |
| Attributes.LastValueAppend | src/OpenStreetMap.cpp:120-136 | In `a + b`, the last value of a key is `b`'s when `b` has one, else `a`'s |
| Attributes.LastValueWithout | src/OpenStreetMap.cpp:133-135 | Dropping the structurally consumed keys hides exactly their values |
| SampleDocument.SampleLoads | testsrc/COpenStreetMapTest.cpp:11-72 | The test document loads to one node (id 1 at (12.34, 56.78), `name=TestNode`) and one way (id 101, references `[1]`, `highway=residential`), with the counts and accessor values the parsing tests check |
| SampleDocument.InvalidLookups | testsrc/COpenStreetMapTest.cpp:78-90 | On the test document, id 999 and index 10 find neither a node nor a way |
| SampleDocument.MalformedIdFails | src/OpenStreetMap.cpp:121-122 | A node whose `id` is `abc` makes the load of the document fail |

## Left out

- The markup tokenizer (`CXMLReader::ReadEntity`) and its input stream are not part of this model. Its output is the `seq<Event>` parameter, and character data is an event the builder ignores.
- `std::stoull` and `std::stod` are the parameter `Parsers`, with no claim about whitespace, prefixes, signs, overflow or rounding. `SampleDocument`'s decimal stand-ins exist only to state the tests' values.
- Floating point: a location holds the exact real the coordinate conversion returns. The tests' exact comparisons with `12.34` and `56.78` are stated on those reals.
- Exceptions: a failed conversion is the `Failure` result of `Load` and `BuildMap`. No partially built map is observable, as in the source, where the exception leaves the constructor.
- `shared_ptr` and `unique_ptr` ownership, and the polymorphic `CStreetMap::SNode`/`SWay` interfaces: nodes and ways are values. After an entity is pushed onto its list, the source never touches it again, and the cursor is cleared in the same step, so no alias is observable.
- Entities.Node.GetAttributeKey: stated without the hash order of `std::unordered_map`, which is unspecified. It is a ghost function over a fixed enumeration, so it cannot be called from compiled code.
- Entities.Way.GetAttributeKey: the same as `Entities.Node.GetAttributeKey`.
- The destructor (`src/OpenStreetMap.cpp:210`) has no behaviour to model.
- `src/CStreetMap.cpp`, `src/CSVBusSystem.cpp` and `src/CBusSystem.cpp` hold declarations only. `InvalidNodeID` is taken to be the largest 64-bit id, because the header that defines it is not part of this model.
- The bus-route subsystem and the CSV reader are not part of this model.
