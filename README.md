# kafka-bridge allow-list matcher — a Dafny model

kafka-bridge copies messages from source Kafka topics to a destination topic, one
route at a time, and forwards a source message only if it mentions a value
that was previously seen on one of the route's *reference feeds*. This project
models the parts of the bridge that decide what is cached and what is
forwarded, and proves properties of them:

- **Matcher** (`engine.dfy`, module `Engine`). Its parts are:
  - the year-prefix equivalence (`"24/001"` ~ `"2024/001"`);
  - field-path extraction of depth 1 or 2 from a reference payload;
  - leaf enumeration of an arbitrary source payload, visiting object keys in sorted order;
  - feed selection by topic and `key=value` header filters;
  - the three operations that extend or query the route's allow-list in the shared store: `ProcessReference`, `ShouldForward` and `AddValues`.

  The `Matcher` is a class whose methods call the shared `MatchStore` object.
- **Store** (`store.dfy`, module `Store`). It holds two things:
  - the single-set `ISNStore` as `internal/store/store.go` defines it;
  - the route-keyed `MatchStore` (route id ↦ set of values) that the engine and the store test use, including `Clear`.
- **Configuration validation** (`config.dfy`, module `Config`). It covers:
  - the cluster, TLS and route validators;
  - the match-field shape rule (`field` or `parent.child`);
  - `DisplayName`;
  - `Config.Validate`, which fills in defaults in place;
  - the commit-interval defaulting of `Load`.
- **Command helpers** (`filter.dfy`, module `Filter`). These are:
  - `slug`, `routeKey` and `referenceTopics`;
  - `cloneMessage`, over byte arrays;
  - the accept/reject/status decision of the `/reference/<route>` and `/referenceAllRoutes` injection handlers, including the store update they perform.
- Support modules:
  - `text.dfy` (`Text`): ASCII lower-casing, splitting on a character, cutting at the first occurrence, the byte-wise string order, and the sorted key list of a set.
  - `json.dfy` (`Json`): the parsed JSON value and its `%v` rendering.
  - `wrappers.dfy`: `Option` and `Result`.
- `engine_test.dfy` (`EngineTests`) restates the scenarios of `internal/engine/engine_test.go` as lemmas and a method over the model.

A decoded payload is given as `Decoded = Parsed(Json) | Malformed`, so the
JSON decoder itself is a parameter of the model. Go's randomised map and set
iteration is modelled by arbitrary choice (`:|`) in the method loops, so the
proved results hold for every iteration order.

Behaviours of the code worth noting, which the model keeps:

- Reference payloads are decoded into a map. Go's decoder accepts `null` there, which gives an empty body. So a `null` reference payload is not an invalid payload: extraction then fails on the first field (or succeeds with no values when the feed has no fields).
- A two-segment field path whose parent is absent or not an object fails with the "missing nested object" error, not "not found".
- A route without a name is identified by its destination topic as is (`DisplayName`). The slug is applied only by `routeKey`.
- `Config.Validate` does not reject duplicate route identifiers.
- The "digit" test of `yearVariants` uses `unicode.IsDigit` on a single byte. This accepts only `'0'..'9'`, and for these ASCII prefixes byte positions and character positions coincide, so the model works on characters.

## Model

| member | source | states |
|---|---|---|
| Engine.YearVariants | internal/engine/engine.go:216-235 | the variant set always contains the value itself and has at most two elements |
| Engine.YearPrefixesExclusive | internal/engine/engine.go:221-228 | a value never has both the `NN/` and the `20NN/` prefix |
| Engine.YearVariantsCases | internal/engine/engine.go:221-228 | exactly `{v, "20"+v}` for `NN/…`, `{v, v[2:]}` for `20NN/…`, `{v}` otherwise |
| Engine.YearVariantsSymmetric | internal/engine/engine.go:221-228 | if `w` is a variant of `v`, then `v` is a variant of `w` |
| Engine.YearVariantsExamplePair | internal/engine/engine.go:221-228 | `"24/001"` and `"2024/001"` are variants of each other |
| Engine.YearVariantsExampleApart | internal/engine/engine.go:221-228 | `"2024/001"` and `"24/002"` share no variant |
| Engine.AllVariants | internal/engine/engine.go:103-110 | definition: the union of the year variants of every value, the set that the add loops of AddValues and processReference insert; its properties are the three lemmas below |
| Engine.AllVariantsPrefix | internal/engine/engine.go:104-110 | the variants of a list grow, value by value, by each value's variants |
| Engine.AllVariantsMember | internal/engine/engine.go:104-110 | a string is among the variants of a list iff it is a variant of some element |
| Engine.AllVariantsSnoc | internal/engine/engine.go:104-110 | appending a value adds exactly its variants |
| Engine.LookupField | internal/engine/engine.go:126-146 | a failure names the field and is "not found", "missing nested object" or "depth unsupported"; a success is a top-level value or a value of a nested object (the per-depth cases are the three lemmas below) |
| Engine.LookupTopLevel | internal/engine/engine.go:129-133 | a one-segment path yields `payload[key]`, or "not found" when the key is absent |
| Engine.LookupNested | internal/engine/engine.go:134-142 | a two-segment path fails with "missing nested object" when the parent is absent or not an object, with "not found" when the child is absent, else yields the child |
| Engine.LookupTooDeep | internal/engine/engine.go:143-144 | a path with two or more dots always fails with "depth unsupported" |
| Engine.ExtractMatchValues | internal/engine/engine.go:114-124 | succeeds iff every field lookup succeeds; the result is then as long as the field list, and element i is the rendering of field i's value; otherwise the error is that of the first failing field |
| Engine.Flatten | internal/engine/engine.go:148-171 | definition: a scalar gives its rendering, an object the leaves of its values in sorted key order, an array the leaves of its items in order; its properties are the lemmas below |
| Engine.FlattenFields | internal/engine/engine.go:158-160 | definition: the leaves of the values under a key list, in list order |
| Engine.FlattenItems | internal/engine/engine.go:164-166 | definition: the leaves of array items from an index on, in order |
| Engine.FlattenLeaves | internal/engine/engine.go:148-171 | a string is emitted iff it is the rendering of some scalar leaf reachable in the value |
| Engine.FlattenObjectLeaves | internal/engine/engine.go:150-161 | an object emits exactly the leaves of its members' values |
| Engine.FlattenFieldsLeaves | internal/engine/engine.go:158-160 | walking a key list emits exactly the leaves of the values under those keys |
| Engine.FlattenItemsLeaves | internal/engine/engine.go:162-167 | walking array items from index i emits exactly the leaves of items i onwards |
| Engine.FlattenBase | internal/engine/engine.go:148-171 | a scalar emits its single rendering; empty objects and empty arrays emit nothing |
| Engine.FlattenFieldsFrame | internal/engine/engine.go:158-160 | the walk over a key list depends only on the values under those keys |
| Engine.FlattenObjectLeastFirst | internal/engine/engine.go:153-160 | an object emits its least key's leaves first, then those of the remaining object: keys are visited in sorted order |
| Engine.FlattenItemsShift | internal/engine/engine.go:164-166 | walking items after a leading element equals walking the rest |
| Engine.FlattenArrayFirst | internal/engine/engine.go:162-167 | an array emits its first item's leaves, then those of the rest, in order |
| Engine.ParseTopicHeaders | internal/engine/engine.go:173-186 | definition: entries are stored in order under their lower-cased keys, and the first malformed entry fails the parse; its properties are the lemmas below |
| Engine.HeaderEntryCases | internal/engine/engine.go:179-182 | an entry is accepted iff it has a `=` and the text before the first `=` is non-empty |
| Engine.ParseStep | internal/engine/engine.go:178-184 | one more entry either keeps an earlier failure, fails on that entry, or stores its lower-cased key with the text after the first `=` |
| Engine.ParseTopicHeadersOk | internal/engine/engine.go:173-186 | parsing succeeds iff every entry is well formed |
| Engine.ParseTopicHeadersErrors | internal/engine/engine.go:178-182 | a failed parse reports the first malformed entry |
| Engine.NamesKeySnoc | internal/engine/engine.go:178-184 | a key is named by a list iff its prefix or its last entry names it |
| Engine.ParseTopicHeadersKeys | internal/engine/engine.go:173-186 | after a successful parse, the keys are exactly the lower-cased keys of the entries |
| Engine.Entries | internal/engine/engine.go:178-184 | definition: the (lower-cased key, value) pair of each well-formed entry, in entry order; `ParseAsMap`, `MapOfLastWins` and `ParseTopicHeadersLastWins` connect the parser to it |
| Engine.MapOfLastWins | internal/engine/engine.go:183 | storing pairs in order leaves each key with the value of the last pair naming it |
| Engine.ParseAsMap | internal/engine/engine.go:173-186 | for well-formed entries, parsing stores the entries one by one in order |
| Engine.ParseTopicHeadersLastWins | internal/engine/engine.go:173-186 | for well-formed entries, a key gets the value of the last entry naming it |
| Engine.HeadersMatch | internal/engine/engine.go:201-214 | definition: every expected header is present in the actual map under its lower-cased key, with an equal value |
| Engine.HeadersMatchEdges | internal/engine/engine.go:201-214 | no expected headers always match; expected headers never match an absent (nil) header map |
| Engine.CompileFeed | internal/engine/engine.go:31-41 | a feed compiles iff its header filter parses, and then keeps its name, topic, parsed headers and fields; otherwise the header parser's error is returned unchanged |
| Engine.FirstFeed | internal/engine/engine.go:188-199 | the chosen feed accepts the topic and headers, and no earlier feed does; none is chosen only when no feed accepts |
| Engine.ObjectBody | internal/engine/engine.go:57-60 | decoding into a map accepts exactly objects, giving their members, and `null`, giving the empty map |
| Engine.ReferenceValues | internal/engine/engine.go:51-65 | no accepting feed gives the no-feed error with no feed name; otherwise the name of the first accepting feed is reported, and an undecodable body gives the invalid-payload error, while a decodable body gives the result of extracting that feed's match fields from it |
| Engine.AnyVariantCached | internal/engine/engine.go:86-92 | definition: some variant of some value is in the route's set |
| Engine.ForwardAnywhere | internal/engine/engine.go:78-94 | the forwarding test holds iff some leaf anywhere in the payload has a variant in the route's set |
| Engine.Matcher.constructor | internal/engine/engine.go:43-47 | the matcher holds the given route id, compiled feeds and store |
| Engine.Matcher.FeedFor | internal/engine/engine.go:188-199 | the linear scan returns the first feed, in configuration order, whose topic equals and whose headers match, and reports none otherwise |
| Engine.Matcher.AddValues | internal/engine/engine.go:101-112 | adds every variant of every value under this route and nothing else; returns true iff some variant was new |
| Engine.Matcher.AddEach | internal/engine/engine.go:105-109 | adds a set of variants under this route; returns true iff some was new |
| Engine.Matcher.ProcessReference | internal/engine/engine.go:51-76 | on any error (no feed, bad payload, missing field) the store is unchanged and nothing is reported added; on success every variant of every extracted value is added under this route, and the result is true iff some was new |
| Engine.Matcher.ShouldForward | internal/engine/engine.go:79-94 | never changes the store; a malformed payload is an error; otherwise true iff some variant of some flattened leaf is in the route's set |
| Engine.Matcher.Size | internal/engine/engine.go:97-99 | the number of values cached for this route |
| Engine.NewMatcher | internal/engine/engine.go:29-48 | fails iff some feed's header filter fails to parse, with the first such error; otherwise a fresh matcher for the route and store whose i-th feed is the compiled i-th configuration |
| Store.ISNStore.constructor | internal/store/store.go:12-16 | a new store is empty |
| Store.ISNStore.Add | internal/store/store.go:19-27 | true iff the value was absent; afterwards it is present, no other membership changed, and the size grew by exactly 1 when true and 0 otherwise |
| Store.ISNStore.Contains | internal/store/store.go:30-35 | membership, without changing the set |
| Store.ISNStore.Reset | internal/store/store.go:38-42 | afterwards the set is empty, its size is 0, and nothing is contained |
| Store.ISNStore.Size | internal/store/store.go:45-49 | the set's cardinality, without changing it |
| Store.AddTwice | internal/store/store.go:19-27 | adding the same identifier twice: the second Add reports nothing new and leaves the set and its size as the first left them |
| Store.Insert | internal/engine/engine.go:70 | adding values under one route extends that route's set by them and leaves every other route's set unchanged |
| Store.InsertTwice | internal/engine/engine.go:68-74 | two successive insertions under one route equal one insertion of their union |
| Store.MapRemoveSize | internal/store/store_test.go:11 | removing a present route shrinks the map by one |
| Store.TotalEntriesAnyRoute | internal/store/store_test.go:11-14 | the total entry count splits into any one route's count plus the rest |
| Store.MatchStore.constructor | internal/store/store_test.go:6 | a new route-keyed store holds no routes |
| Store.MatchStore.Add | internal/engine/engine.go:70 | true iff the value was absent from the route's set; the value is inserted under that route only |
| Store.MatchStore.Contains | internal/engine/engine.go:88 | membership in the route's set (empty for an unknown route), without changing anything |
| Store.MatchStore.Size | internal/engine/engine.go:98 | the cardinality of the route's set (0 for an unknown route), without changing anything |
| Store.MatchStore.Clear | internal/store/store_test.go:11-24 | returns the total number of entries removed across routes and leaves every route empty |
| Store.ClearTestCounts | internal/store/store_test.go:6-24 | the test's store holds 3 entries across 2 routes, and an empty store holds 0 |
| Store.ClearScenario | internal/store/store_test.go:5-25 | replaying the test on a store: three Adds, then Clear returns 3, both routes have size 0, and a second Clear returns 0 |
| Text.IsDigit | internal/engine/engine.go:237-239 | definition: `unicode.IsDigit` on one byte of a string, which holds exactly for `'0'..'9'`; `YearVariantsCases` states the prefixes it recognises |
| Text.Lower | internal/engine/engine.go:183 | same length; no ASCII upper-case letter remains; every other character is unchanged; an upper-case letter becomes its lower-case letter |
| Text.Split | internal/config/config.go:169 | splitting never yields an empty list |
| Text.SplitJoin | internal/config/config.go:169 | the parts number one more than the separators, contain no separator, and join back to the input |
| Text.CountZero | internal/config/config.go:169 | no separators iff the character does not occur |
| Text.CountAppend | internal/config/config.go:169 | separator counts add over concatenation |
| Text.SplitNoSeparator | internal/engine/engine.go:127-133 | a string without the separator splits into itself |
| Text.SplitOneSeparator | internal/engine/engine.go:127-142 | `p.q` with separator-free `p`, `q` splits into `[p, q]` |
| Text.SplitTwo | internal/engine/engine.go:134-142 | a two-part split is the two parts around the separator |
| Text.Cut | internal/engine/engine.go:179 | absent iff the separator does not occur; otherwise the prefix has no separator and prefix, separator and rest rebuild the input |
| Text.CutJoin | internal/engine/engine.go:179 | cutting `x` + separator + `y` with separator-free `x` yields `(x, y)` |
| Text.TrimPrefix | cmd/filter/main.go:296 | with the prefix present, prefix plus result is the input; otherwise the input is returned unchanged |
| Text.Less | internal/engine/engine.go:157 | definition: the order of `sort.Strings`, a proper prefix first, else the first differing character decides; it is a strict total order by the lemmas below |
| Text.LessIrreflexive | internal/engine/engine.go:157 | no string sorts before itself |
| Text.LessAsymmetric | internal/engine/engine.go:157 | two strings never sort before each other |
| Text.LessTransitive | internal/engine/engine.go:157 | the string order is transitive |
| Text.LessTotal | internal/engine/engine.go:157 | any two distinct strings are ordered |
| Text.LessAsymmetricAll | internal/engine/engine.go:157 | asymmetry for all pairs at once |
| Text.LeastExists | internal/engine/engine.go:153-157 | a non-empty key set has a least key |
| Text.LeastUnique | internal/engine/engine.go:153-157 | the least key is unique |
| Text.SortedKeys | internal/engine/engine.go:153-157 | the keys in strictly increasing order, each exactly once |
| Text.SortedKeysLeastFirst | internal/engine/engine.go:153-157 | the sorted keys are the least key followed by the sorted rest |
| Json.Render | internal/engine/engine.go:121 | a string value renders as itself |
| Config.ValidateTLS | internal/config/config.go:138-149 | accepted iff cert file and key file are both set or both empty; a cert without a key asks for the key, a key without a cert asks for the cert |
| Config.ValidateCluster | internal/config/config.go:126-136 | accepted iff brokers are non-empty and any TLS section is valid; an empty broker list is always the reported problem; with brokers, the TLS section's own problem is reported |
| Config.MatchFieldProblem | internal/config/config.go:168-178 | a rejection is for the field's depth or for an empty segment; the exact conditions are the lemmas below |
| Config.MatchFieldNoDot | internal/config/config.go:168-178 | a dot-free field is accepted iff non-empty |
| Config.MatchFieldOneDot | internal/config/config.go:168-178 | a one-dot field is accepted iff it neither starts nor ends with the dot |
| Config.MatchFieldManyDots | internal/config/config.go:169-171 | a field with two or more dots is rejected for its depth |
| Config.MatchFieldAccepted | internal/config/config.go:168-178 | accepted iff non-empty, at most one dot, and not starting or ending with a dot; rejected for depth iff it has two or more dots |
| Config.AcceptedFieldShape | internal/config/config.go:168-178 | an accepted field is one non-empty key, or two non-empty dot-free keys joined by a dot |
| Config.AcceptedFieldHasSupportedDepth | internal/config/config.go:168-178 | an accepted field never makes the engine's lookup fail for its depth |
| Config.FieldsProblem | internal/config/config.go:168-178 | no problem iff every field is accepted; otherwise the problem of the first rejected field |
| Config.FeedProblem | internal/config/config.go:161-178 | a feed is accepted iff its topic and field list are non-empty and all fields are accepted; a missing topic is reported before missing fields, and a feed with both reports its first rejected field |
| Config.FeedsProblem | internal/config/config.go:161-179 | no problem iff every feed is accepted; otherwise the problem of the first rejected feed |
| Config.ValidateRoute | internal/config/config.go:151-178 | empty source topics, then a missing destination, then no feeds, are reported in that order; a route with all three reports its first rejected feed |
| Config.RouteAccepted | internal/config/config.go:151-181 | a route is accepted iff it has source topics, a destination and feeds, and every feed has a topic and accepted, non-empty match fields |
| Config.DisplayName | internal/config/config.go:184-189 | the name when set, otherwise the destination topic; empty only when both are |
| Config.ValidRouteIsNamed | internal/config/config.go:151-189 | an accepted route always has a non-empty display name |
| Config.RoutesProblem | internal/config/config.go:112-116 | no problem iff every route is accepted; otherwise the first rejected route, with its index |
| Config.Config.constructor | internal/config/config.go:18-29 | the record holds the given fields |
| Config.Config.Problem | internal/config/config.go:93-116 | accepted iff both clusters are valid, the three ids are set, routes exist and each is accepted; the reported problem is the first failing check in order: source cluster, bridge cluster, client id, source group id, reference group id, no routes, then the first rejected route |
| Config.Config.Validate | internal/config/config.go:93-124 | returns the configuration's problem; changes nothing on failure; on success sets the listen address to ":8080" and the flush interval to 10s only where they were empty or zero |
| Config.Load | internal/config/config.go:81-90 | commit interval 0 becomes 5s before validation; succeeds iff validation does, returning the same configuration, and otherwise returns the validation error; clusters, ids and routes are unchanged; on failure the HTTP and storage sections are unchanged; on success only an empty listen address and a zero flush interval get their defaults |
| Filter.Slug | cmd/filter/main.go:213-216 | same length; no space, slash, backslash, dot or upper-case letter remains; separators become `-` and every other character is lower-cased |
| Filter.SlugIdempotent | cmd/filter/main.go:213-216 | slugging a slug changes nothing |
| Filter.SlugIgnoresCaseAndSeparators | cmd/filter/main.go:213-216 | strings that differ only in case or in which separator is used get the same slug |
| Filter.RouteKey | cmd/filter/main.go:218-220 | the key is as long as the display name and is already a slug |
| Filter.RouteKeyIgnoresCaseAndSeparators | cmd/filter/main.go:218-220 | routes whose display names differ only in letter case or in which separator stands at a position share a key |
| Filter.ValidRouteHasKey | cmd/filter/main.go:218-220 | an accepted route has a non-empty key |
| Filter.ReferenceTopics | cmd/filter/main.go:222-228 | one topic per feed, in feed order |
| Filter.CopyOf | cmd/filter/main.go:204-205 | a fresh array with the same contents |
| Filter.CloneMessage | cmd/filter/main.go:202-211 | fresh key, value and header arrays with equal contents and the same header count, the same time, and no other field carried over |
| Filter.ReferenceGate | cmd/filter/main.go:291-315 | proceeds iff POST, a non-empty route id, a known route and a decodable non-empty list; otherwise, checked in that order: 405 for another method, 400 for an empty route id, 404 for an unknown route, 400 for an undecodable or empty list |
| Filter.AllRoutesGate | cmd/filter/main.go:262-276 | proceeds iff POST with a decodable non-empty list; otherwise 405 for other methods and 400 for bad bodies |
| Filter.HandleReference | cmd/filter/main.go:291-322 | a refusal leaves the store unchanged; otherwise every variant is added under the route, and the status is 201 iff some was new, else 200 |
| Filter.AddToAllRoutes | cmd/filter/main.go:278-283 | every matcher's route gains all variants, other routes are unchanged, and the result is true iff some route gained something |
| Filter.AddToRoute | cmd/filter/main.go:279-282 | one more route gains all variants; the result tells whether it gained anything |
| Filter.SomeGainsStep | cmd/filter/main.go:278-283 | "some route gained" over one more route is the old answer or that route's gain |
| Filter.InsertOneRoute | cmd/filter/main.go:279-282 | inserting under one more route extends the set of routes that have gained |
| Filter.HandleReferenceAllRoutes | cmd/filter/main.go:262-289 | a refusal leaves the store unchanged; otherwise every route gains all variants, and the status is 201 iff some route gained something, else 200 |
| EngineTests.ExtractOne | internal/engine/engine.go:114-124 | extracting a single found field yields its rendering |
| EngineTests.ExtractTwo | internal/engine/engine.go:114-124 | extracting two found fields yields their renderings in field order |
| EngineTests.ReferenceLookups | internal/engine/engine_test.go:12-18 | the test payload's `fieldA` and `sub.fieldB` resolve to `value1` and `value2` |
| EngineTests.ReferenceLookupTop | internal/engine/engine_test.go:12-13 | the test payload's `fieldA` resolves to `value1` |
| EngineTests.ReferenceLookupNested | internal/engine/engine_test.go:14-16 | the test payload's `sub.fieldB` resolves to `value2` |
| EngineTests.ExtractKeepsFieldOrder | internal/engine/engine_test.go:18-24 | extracting `sub.fieldB, fieldA` yields `value2, value1` |
| EngineTests.ExtractMissingFieldFails | internal/engine/engine_test.go:27-33 | extracting a missing field fails |
| EngineTests.PlainVariants | internal/engine/engine.go:216-235 | a value not starting with a digit is its own only variant |
| EngineTests.NonMatchingLeaves | internal/engine/engine_test.go:74-77 | the non-matching payload's only leaves are `other` and `different` |
| EngineTests.TestReferenceValues | internal/engine/engine_test.go:51-58 | feed-a yields `value1`, feed-b yields `value2`, each under its feed's display name, whatever those names are |
| EngineTests.TestForwardSame | internal/engine/engine_test.go:60-72 | the source payload is forwarded once both reference values are cached |
| EngineTests.TestForwardOther | internal/engine/engine_test.go:74-82 | the non-matching payload is not forwarded |
| EngineTests.TestForwardInjected | internal/engine/engine_test.go:84-91 | after injecting `other`, the non-matching payload is forwarded |
| EngineTests.PlainAllVariants | internal/engine/engine.go:101-112 | the variants of a single plain value are that value alone |
| EngineTests.TestMatcher | internal/engine/engine_test.go:36-43 | the test matcher is built for route `route` over the shared store with the two test feeds |
| EngineTests.CacheReferences | internal/engine/engine_test.go:51-58 | both reference messages report added values, and the route's set becomes `{value1, value2}` |
| EngineTests.ReferenceThenForward | internal/engine/engine_test.go:35-92 | the whole test scenario, for any feed display names: both references added, the matching source forwarded, the non-matching one blocked, the manual add succeeds, then the non-matching source is forwarded |

## Left out

- JSON decoding (`json.Unmarshal`, and the array decoding in the injection handlers) is not modelled. A payload or request body arrives already decoded, or is marked malformed (`Decoded`, `Option`).
- Number formatting: `%v` of a float64 is not modelled. A number carries its rendered text, so `Json.Render` treats numbers as uninterpreted strings.
- Json.Render: its contract states only that strings render as themselves. The `map[k:v …]` and `[a b]` shapes of objects and arrays are given by its definition, not proved as properties.
- Concurrency is not modelled: the store's mutex, the goroutines and wait group of `main`, signal handling, and the snapshot ticker. Every operation is sequential.
- The Kafka reader and writer loops (`streamRoute`, `runReferenceCollector`), dialer construction, and `main` are I/O orchestration over a library that is not modelled. The decisions they call are modelled.
- HTTP server lifecycle and framing (mux, listener, shutdown, response bodies) are not modelled; the handlers' decisions and store updates are.
- internal/kafka/writers.go (the writer pool) is not part of this model: it is network plumbing.
- Snapshot loading and saving belong to a revision of the route-keyed store whose source file is not part of this model. The route-keyed `MatchStore` is reconstructed from its uses in engine.go and store_test.go.
- YAML file reading and parsing in `Load` are not modelled (the decoded record is the input), and neither is TLS certificate loading (`TLSConfigObject`, `tlsConfig`).
- Unicode: `strings.ToLower` is modelled as ASCII lower-casing. Non-ASCII upper-case letters are kept by `Lower` and `Slug`.
- Text.Split: its own contract states only that the result is non-empty; the join, count and shape properties are in `SplitJoin`, `SplitOneSeparator` and `SplitTwo`.
- Filter.CloneMessage: Go's distinction between a nil and an empty byte slice is not represented; both are an empty array. Header values are copied by reference, as in `copy`, so they share their byte arrays with the original.
- cmd/filter/main.go is from a different revision than engine.go and config.go (its matcher constructor and feed record differ). Feeds reach the engine as `Engine.FeedConfig`, with a display name and `topicHeaders`, which this revision of config.go does not define.
- cmd/filter/main_test.go is not modelled: it targets handlers that this revision of main.go does not define.
- Validation error messages are modelled as error kinds carrying the offending index, field or topic, not as formatted text. The `len(parts) == 0` test in `Route.validate` can never hold and has no counterpart.
- Durations are integers of nanoseconds.
