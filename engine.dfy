/**
 * The per-route matcher of internal/engine/engine.go: field-path extraction
 * from reference payloads, leaf enumeration of source payloads, the
 * two-digit / four-digit year equivalence, feed selection by topic and
 * headers, and the three operations that read or extend the route's
 * allow-list in the shared store.
 */
module Engine {
  import opened Wrappers
  import opened Text
  import opened Json
  import opened Store

  datatype EngineError =
    | NoMatchingFeed(topic: string)
    | InvalidPayload
    | FieldNotFound(field: string)
    | MissingNestedObject(field: string)
    | DepthUnsupported(field: string)
    | InvalidTopicHeader(entry: string)

  // ---------------------------------------------------------------------
  // yearVariants
  // ---------------------------------------------------------------------

  /** `v` starts with two digits and a slash ("24/001"). */
  predicate ShortYearPrefix(v: string)
  {
    |v| >= 3 && IsDigit(v[0]) && IsDigit(v[1]) && v[2] == '/'
  }

  /** `v` starts with "20", two digits and a slash ("2024/001"). */
  predicate LongYearPrefix(v: string)
  {
    |v| >= 5 && v[..2] == "20" && IsDigit(v[2]) && IsDigit(v[3]) && v[4] == '/'
  }

  /**
   * The values treated as equal to `v`: `v` itself, plus "20" + v for a
   * two-digit year prefix, plus `v` without its leading "20" for a
   * four-digit one.
   */
  function YearVariants(v: string): (r: set<string>)
    ensures v in r
    ensures |r| <= 2
  {
    var widened := if ShortYearPrefix(v) then {"20" + v} else {};
    var narrowed := if LongYearPrefix(v) then {v[2..]} else {};
    {v} + widened + narrowed
  }

  /** The two prefix tests never both hold: one needs '/' at index 2, the other a digit. */
  lemma YearPrefixesExclusive(v: string)
    ensures !(ShortYearPrefix(v) && LongYearPrefix(v))
  {
  }

  /** The variant set in each of its three shapes. */
  lemma YearVariantsCases(v: string)
    ensures ShortYearPrefix(v) ==> YearVariants(v) == {v, "20" + v} && |YearVariants(v)| == 2
    ensures LongYearPrefix(v) ==> YearVariants(v) == {v, v[2..]} && |YearVariants(v)| == 2
    ensures !ShortYearPrefix(v) && !LongYearPrefix(v) ==> YearVariants(v) == {v}
  {
    if ShortYearPrefix(v) {
      assert v != "20" + v;
    }
    if LongYearPrefix(v) {
      assert v != v[2..];
    }
  }

  /** Variant equivalence is symmetric. */
  lemma YearVariantsSymmetric(v: string, w: string)
    requires w in YearVariants(v)
    ensures v in YearVariants(w)
  {
    if ShortYearPrefix(v) && w == "20" + v {
      assert w[..2] == "20" && w[2] == v[0] && w[3] == v[1] && w[4] == v[2];
      assert LongYearPrefix(w) && w[2..] == v;
    } else if LongYearPrefix(v) && w == v[2..] {
      assert ShortYearPrefix(w);
      assert "20" + w == v[..2] + v[2..] == v;
    }
  }

  /** "24/001" and "2024/001" are each other's variants. */
  lemma YearVariantsExamplePair()
    ensures "2024/001" in YearVariants("24/001") && "24/001" in YearVariants("2024/001")
  {
    var short := "24/001";
    assert ShortYearPrefix(short);
    assert "20" + short == "2024/001";
    YearVariantsSymmetric(short, "2024/001");
  }

  /** "2024/001" shares no variant with "24/002". */
  lemma YearVariantsExampleApart()
    ensures YearVariants("2024/001") !! YearVariants("24/002")
  {
    var a, b := "2024/001", "24/002";
    assert LongYearPrefix(a) && a[2..] == "24/001";
    assert ShortYearPrefix(b) && "20" + b == "2024/002";
    YearVariantsCases(a);
    YearVariantsCases(b);
    assert a[7] != b[5] && a[7] != "2024/002"[7];
    assert "24/001"[5] != b[5] && "24/001"[5] != "2024/002"[7];
  }

  /** Every variant of every value in `values`. */
  function AllVariants(values: seq<string>): set<string>
  {
    if values == [] then {} else YearVariants(values[0]) + AllVariants(values[1..])
  }

  /** Extending the processed prefix by one value adds exactly that value's variants. */
  lemma AllVariantsPrefix(values: seq<string>, i: nat)
    requires i < |values|
    ensures AllVariants(values[..i + 1]) == AllVariants(values[..i]) + YearVariants(values[i])
  {
    assert values[..i + 1] == values[..i] + [values[i]];
    AllVariantsSnoc(values[..i], values[i]);
  }

  /**
   * Something was new in `prior + next` (with respect to `before`) iff
   * something was new in `prior`, or something in `next` was new once
   * `prior` had been added.
   */
  lemma NewSomewhere(before: set<string>, prior: set<string>, next: set<string>)
    ensures !(prior + next <= before) <==> !(prior <= before) || !(next <= before + prior)
  {
  }

  /** A string is among all the variants iff it is a variant of one of the values. */
  lemma {:induction false} AllVariantsMember(values: seq<string>, w: string)
    ensures w in AllVariants(values) <==> exists i :: 0 <= i < |values| && w in YearVariants(values[i])
  {
    if values != [] {
      AllVariantsMember(values[1..], w);
      if exists i :: 0 <= i < |values| && w in YearVariants(values[i]) {
        var i :| 0 <= i < |values| && w in YearVariants(values[i]);
        if i > 0 { assert values[1..][i - 1] == values[i]; }
      }
    }
  }

  /** Appending one value adds exactly its variants. */
  lemma {:induction false} AllVariantsSnoc(values: seq<string>, v: string)
    ensures AllVariants(values + [v]) == AllVariants(values) + YearVariants(v)
  {
    if values == [] {
      assert [] + [v] == [v];
    } else {
      assert (values + [v])[1..] == values[1..] + [v];
      AllVariantsSnoc(values[1..], v);
    }
  }

  // ---------------------------------------------------------------------
  // lookupField and extractMatchValues
  // ---------------------------------------------------------------------

  /**
   * The value at a one- or two-segment field path of a decoded object.
   * `strings.Split` decides the depth: one segment is a top-level key, two
   * are `parent.child` through a nested object, more are refused.
   */
  function LookupField(payload: map<string, Json>, field: string): (r: Result<Json, EngineError>)
    ensures r.Err? ==> r.error in {FieldNotFound(field), MissingNestedObject(field), DepthUnsupported(field)}
    ensures r.Ok? ==> r.value in payload.Values || NestedValue(payload, r.value)
  {
    var parts := Split(field, '.');
    if |parts| == 1 then
      if parts[0] in payload then Ok(payload[parts[0]]) else Err(FieldNotFound(field))
    else if |parts| == 2 then
      if parts[0] in payload && payload[parts[0]].Object? then
        var child := payload[parts[0]].fields;
        if parts[1] in child then Ok(child[parts[1]]) else Err(FieldNotFound(field))
      else Err(MissingNestedObject(field))
    else Err(DepthUnsupported(field))
  }

  /** `v` is a member value of some object that is itself a member value of `payload`. */
  predicate NestedValue(payload: map<string, Json>, v: Json)
  {
    exists k :: k in payload && payload[k].Object? && v in payload[k].fields.Values
  }

  /** A path without a dot is a top-level key; absent, it fails with FieldNotFound. */
  lemma LookupTopLevel(payload: map<string, Json>, key: string)
    requires '.' !in key
    ensures key in payload ==> LookupField(payload, key) == Ok(payload[key])
    ensures key !in payload ==> LookupField(payload, key) == Err(FieldNotFound(key))
  {
    SplitNoSeparator(key, '.');
  }

  /**
   * `parent.child` fails with MissingNestedObject unless the parent is a
   * nested object, and with FieldNotFound when that object lacks the child.
   */
  lemma LookupNested(payload: map<string, Json>, parent: string, child: string)
    requires '.' !in parent && '.' !in child
    ensures var field := parent + "." + child;
      && (parent !in payload || !payload[parent].Object? ==> LookupField(payload, field) == Err(MissingNestedObject(field)))
      && (parent in payload && payload[parent].Object? && child !in payload[parent].fields ==>
            LookupField(payload, field) == Err(FieldNotFound(field)))
      && (parent in payload && payload[parent].Object? && child in payload[parent].fields ==>
            LookupField(payload, field) == Ok(payload[parent].fields[child]))
  {
    assert parent + "." + child == parent + ['.'] + child;
    SplitOneSeparator(parent, child, '.');
  }

  /** A path with two or more dots is always refused. */
  lemma LookupTooDeep(payload: map<string, Json>, field: string)
    requires Count(field, '.') >= 2
    ensures LookupField(payload, field) == Err(DepthUnsupported(field))
  {
    SplitJoin(field, '.');
  }

  /**
   * The stringified value of every field path, in the caller's order,
   * failing with the error of the first path that cannot be looked up.
   */
  function ExtractMatchValues(payload: map<string, Json>, fields: seq<string>): (r: Result<seq<string>, EngineError>)
    ensures r.Ok? <==> forall i :: 0 <= i < |fields| ==> LookupField(payload, fields[i]).Ok?
    ensures r.Ok? ==> |r.value| == |fields|
    ensures r.Ok? ==> forall i :: 0 <= i < |fields| ==> r.value[i] == Render(LookupField(payload, fields[i]).value)
    ensures r.Err? ==> exists i :: 0 <= i < |fields| && LookupField(payload, fields[i]) == Err(r.error)
                                   && forall j :: 0 <= j < i ==> LookupField(payload, fields[j]).Ok?
    decreases |fields|
  {
    if fields == [] then Ok([])
    else
      match LookupField(payload, fields[0])
      case Err(e) => Err(e)
      case Ok(v) =>
        var rest := ExtractMatchValues(payload, fields[1..]);
        assert forall i :: 1 <= i < |fields| ==> fields[1..][i - 1] == fields[i];
        match rest
        case Err(e) =>
          ghost var i :| 0 <= i < |fields| - 1 && LookupField(payload, fields[1..][i]) == Err(e)
                         && forall j :: 0 <= j < i ==> LookupField(payload, fields[1..][j]).Ok?;
          assert LookupField(payload, fields[i + 1]) == Err(e);
          Err(e)
        case Ok(vs) => Ok([Render(v)] + vs)
  }

  // ---------------------------------------------------------------------
  // flattenValues
  // ---------------------------------------------------------------------

  /**
   * Every scalar leaf of `v`, stringified: object members in ascending key
   * order, array elements in their order, nothing for an empty container.
   */
  function Flatten(v: Json): seq<string>
    decreases v, 1, 0
  {
    match v
    case Object(fields) => FlattenFields(fields, SortedKeys(fields.Keys))
    case Array(items) => FlattenItems(items, 0)
    case _ => [Render(v)]
  }

  function FlattenFields(fields: map<string, Json>, ks: seq<string>): seq<string>
    requires forall k :: k in ks ==> k in fields
    decreases Object(fields), 0, |ks|
  {
    if ks == [] then [] else Flatten(fields[ks[0]]) + FlattenFields(fields, ks[1..])
  }

  function FlattenItems(items: seq<Json>, i: nat): seq<string>
    requires i <= |items|
    decreases Array(items), 0, |items| - i
  {
    if i == |items| then [] else Flatten(items[i]) + FlattenItems(items, i + 1)
  }

  /** `s` is the stringified form of some scalar reachable from `v`. */
  ghost predicate HasLeaf(v: Json, s: string)
    decreases v
  {
    match v
    case Object(fields) => exists k :: k in fields && HasLeaf(fields[k], s)
    case Array(items) => exists i :: 0 <= i < |items| && HasLeaf(items[i], s)
    case _ => Render(v) == s
  }

  /** Flattening enumerates exactly the leaves: nothing is lost and nothing invented. */
  lemma {:induction false} FlattenLeaves(v: Json, s: string)
    ensures s in Flatten(v) <==> HasLeaf(v, s)
    decreases v, 1, 0
  {
    match v
    case Object(fields) =>
      FlattenObjectLeaves(fields, s);
    case Array(items) =>
      FlattenItemsLeaves(items, 0, s);
    case _ =>
  }

  lemma {:induction false} FlattenObjectLeaves(fields: map<string, Json>, s: string)
    ensures s in Flatten(Object(fields)) <==> exists k :: k in fields && HasLeaf(fields[k], s)
    decreases Object(fields), 0, |fields| + 1
  {
    var ks := SortedKeys(fields.Keys);
    FlattenFieldsLeaves(fields, ks, s);
  }

  lemma {:induction false} FlattenFieldsLeaves(fields: map<string, Json>, ks: seq<string>, s: string)
    requires forall k :: k in ks ==> k in fields
    ensures s in FlattenFields(fields, ks) <==> exists k :: k in ks && HasLeaf(fields[k], s)
    decreases Object(fields), 0, |ks|
  {
    if ks != [] {
      FlattenLeaves(fields[ks[0]], s);
      FlattenFieldsLeaves(fields, ks[1..], s);
      if exists k :: k in ks && HasLeaf(fields[k], s) {
        var k :| k in ks && HasLeaf(fields[k], s);
        if k != ks[0] {
          assert k in ks[1..];
        }
      }
    }
  }

  lemma {:induction false} FlattenItemsLeaves(items: seq<Json>, i: nat, s: string)
    requires i <= |items|
    ensures s in FlattenItems(items, i) <==> exists j :: i <= j < |items| && HasLeaf(items[j], s)
    decreases Array(items), 0, |items| - i
  {
    if i < |items| {
      FlattenLeaves(items[i], s);
      FlattenItemsLeaves(items, i + 1, s);
    }
  }

  /** A scalar flattens to its own text; empty containers flatten to nothing. */
  lemma FlattenBase(v: Json)
    ensures v.IsScalar() ==> Flatten(v) == [Render(v)]
    ensures Flatten(Object(map[])) == [] && Flatten(Array([])) == []
  {
  }

  lemma {:induction false} FlattenFieldsFrame(fields: map<string, Json>, fields': map<string, Json>, ks: seq<string>)
    requires forall k :: k in ks ==> k in fields && k in fields' && fields[k] == fields'[k]
    ensures FlattenFields(fields, ks) == FlattenFields(fields', ks)
    decreases |ks|
  {
    if ks != [] { FlattenFieldsFrame(fields, fields', ks[1..]); }
  }

  /** Objects are visited in key order: the least key's leaves come first. */
  lemma FlattenObjectLeastFirst(fields: map<string, Json>, k: string)
    requires IsLeast(k, fields.Keys)
    ensures Flatten(Object(fields)) == Flatten(fields[k]) + Flatten(Object(fields - {k}))
  {
    SortedKeysLeastFirst(fields.Keys, k);
    var rest := fields - {k};
    assert rest.Keys == fields.Keys - {k};
    var ks := SortedKeys(rest.Keys);
    FlattenFieldsFrame(fields, rest, ks);
    assert ([k] + ks)[1..] == ks;
  }

  lemma {:induction false} FlattenItemsShift(x: Json, rest: seq<Json>, i: nat)
    requires i <= |rest|
    ensures FlattenItems([x] + rest, i + 1) == FlattenItems(rest, i)
    decreases |rest| - i
  {
    if i < |rest| {
      assert ([x] + rest)[i + 1] == rest[i];
      FlattenItemsShift(x, rest, i + 1);
    }
  }

  /** Arrays are visited in order: the first element's leaves come first. */
  lemma FlattenArrayFirst(x: Json, rest: seq<Json>)
    ensures Flatten(Array([x] + rest)) == Flatten(x) + Flatten(Array(rest))
  {
    FlattenItemsShift(x, rest, 0);
  }

  // ---------------------------------------------------------------------
  // parseTopicHeaders and headersMatch
  // ---------------------------------------------------------------------

  /** A `key=value` header entry with a non-empty key. */
  predicate WellFormedHeader(entry: string)
  {
    '=' in entry && entry[0] != '='
  }

  /** The lower-cased key of a well-formed entry: the text before its first '='. */
  function HeaderKey(entry: string): string
    requires WellFormedHeader(entry)
  {
    Lower(Cut(entry, '=').value.0)
  }

  /** The value of a well-formed entry: everything after its first '='. */
  function HeaderValue(entry: string): string
    requires WellFormedHeader(entry)
  {
    Cut(entry, '=').value.1
  }

  /**
   * The configured `key=value` header filter as a map with lower-cased
   * keys; a later entry for the same key wins; the first malformed entry
   * is reported.
   */
  function ParseTopicHeaders(raw: seq<string>): Result<map<string, string>, EngineError>
    decreases |raw|
  {
    if raw == [] then Ok(map[])
    else
      var n := |raw| - 1;
      match ParseTopicHeaders(raw[..n])
      case Err(e) => Err(e)
      case Ok(out) =>
        match Cut(raw[n], '=')
        case None => Err(InvalidTopicHeader(raw[n]))
        case Some((key, value)) =>
          if key == "" then Err(InvalidTopicHeader(raw[n]))
          else Ok(out[Lower(key) := value])
  }

  /** An entry is accepted iff it holds a '=' that is not its first character. */
  lemma HeaderEntryCases(entry: string)
    ensures Cut(entry, '=').Some? && Cut(entry, '=').value.0 != "" <==> WellFormedHeader(entry)
  {
    match Cut(entry, '=')
    case None =>
    case Some((k, v)) =>
      assert entry == k + "=" + v;
      if k != "" { assert entry[0] == k[0]; }
  }

  /** The last entry is the one the recursion looks at after its prefix. */
  lemma ParseStep(raw: seq<string>)
    requires raw != []
    ensures var n := |raw| - 1;
      && (ParseTopicHeaders(raw[..n]).Err? ==> ParseTopicHeaders(raw) == ParseTopicHeaders(raw[..n]))
      && (ParseTopicHeaders(raw[..n]).Ok? && !WellFormedHeader(raw[n]) ==> ParseTopicHeaders(raw) == Err(InvalidTopicHeader(raw[n])))
      && (ParseTopicHeaders(raw[..n]).Ok? && WellFormedHeader(raw[n]) ==>
            ParseTopicHeaders(raw) == Ok(ParseTopicHeaders(raw[..n]).value[HeaderKey(raw[n]) := HeaderValue(raw[n])]))
  {
    HeaderEntryCases(raw[|raw| - 1]);
  }

  /** Parsing succeeds exactly when every entry is well formed. */
  lemma {:induction false} ParseTopicHeadersOk(raw: seq<string>)
    ensures ParseTopicHeaders(raw).Ok? <==> forall i :: 0 <= i < |raw| ==> WellFormedHeader(raw[i])
  {
    if raw != [] {
      var n := |raw| - 1;
      var prefix := raw[..n];
      assert forall i :: 0 <= i < n ==> prefix[i] == raw[i];
      ParseTopicHeadersOk(prefix);
      ParseStep(raw);
    }
  }

  /** A failed parse reports the first malformed entry. */
  lemma {:induction false} ParseTopicHeadersErrors(raw: seq<string>)
    ensures ParseTopicHeaders(raw).Err? ==>
      exists i :: 0 <= i < |raw| && !WellFormedHeader(raw[i]) && ParseTopicHeaders(raw).error == InvalidTopicHeader(raw[i])
                 && forall j :: 0 <= j < i ==> WellFormedHeader(raw[j])
  {
    if raw != [] {
      var n := |raw| - 1;
      var prefix := raw[..n];
      assert forall i :: 0 <= i < n ==> prefix[i] == raw[i];
      ParseTopicHeadersOk(prefix);
      ParseTopicHeadersErrors(prefix);
      ParseStep(raw);
    }
  }

  /** Some entry of `raw` names `k`; every entry must be well formed. */
  predicate NamesKey(raw: seq<string>, k: string)
    requires forall i :: 0 <= i < |raw| ==> WellFormedHeader(raw[i])
  {
    exists i :: 0 <= i < |raw| && HeaderKey(raw[i]) == k
  }

  /** A key is named by a non-empty list iff its prefix or its last entry names it. */
  lemma NamesKeySnoc(raw: seq<string>, k: string)
    requires raw != [] && forall i :: 0 <= i < |raw| ==> WellFormedHeader(raw[i])
    ensures NamesKey(raw, k) <==> NamesKey(raw[..|raw| - 1], k) || HeaderKey(raw[|raw| - 1]) == k
  {
    var n := |raw| - 1;
    var prefix := raw[..n];
    if NamesKey(raw, k) && HeaderKey(raw[n]) != k {
      var i :| 0 <= i < |raw| && HeaderKey(raw[i]) == k;
      assert prefix[i] == raw[i];
    }
    if NamesKey(prefix, k) {
      var i :| 0 <= i < n && HeaderKey(prefix[i]) == k;
      assert prefix[i] == raw[i];
    }
  }

  /** On success the keys are exactly the lower-cased entry keys. */
  lemma {:induction false} ParseTopicHeadersKeys(raw: seq<string>, k: string)
    requires ParseTopicHeaders(raw).Ok?
    ensures forall i :: 0 <= i < |raw| ==> WellFormedHeader(raw[i])
    ensures k in ParseTopicHeaders(raw).value <==> NamesKey(raw, k)
  {
    ParseTopicHeadersOk(raw);
    if raw != [] {
      var n := |raw| - 1;
      var prefix := raw[..n];
      ParseStep(raw);
      ParseTopicHeadersKeys(prefix, k);
      NamesKeySnoc(raw, k);
    }
  }

  /** The (key, value) pairs of well-formed entries, in order. */
  function Entries(raw: seq<string>): (r: seq<(string, string)>)
    requires forall j :: 0 <= j < |raw| ==> WellFormedHeader(raw[j])
  {
    seq(|raw|, j requires 0 <= j < |raw| => (HeaderKey(raw[j]), HeaderValue(raw[j])))
  }

  /** The map that stores the pairs in order, a later pair overwriting an earlier one. */
  function MapOf(pairs: seq<(string, string)>): map<string, string>
  {
    if pairs == [] then map[]
    else
      var n := |pairs| - 1;
      MapOf(pairs[..n])[pairs[n].0 := pairs[n].1]
  }

  /** A key maps to the value of the last pair that names it. */
  lemma {:induction false} MapOfLastWins(pairs: seq<(string, string)>, i: nat)
    requires i < |pairs|
    requires forall j :: i < j < |pairs| ==> pairs[j].0 != pairs[i].0
    ensures pairs[i].0 in MapOf(pairs) && MapOf(pairs)[pairs[i].0] == pairs[i].1
  {
    var n := |pairs| - 1;
    if i < n {
      var prefix := pairs[..n];
      assert prefix[i] == pairs[i];
      assert forall j :: i < j < n ==> prefix[j] == pairs[j];
      MapOfLastWins(prefix, i);
    }
  }

  /** With every entry well formed, parsing builds exactly MapOf of the entries. */
  lemma {:induction false} ParseAsMap(raw: seq<string>)
    requires forall j :: 0 <= j < |raw| ==> WellFormedHeader(raw[j])
    ensures ParseTopicHeaders(raw) == Ok(MapOf(Entries(raw)))
  {
    if raw != [] {
      var n := |raw| - 1;
      var prefix := raw[..n];
      assert forall j :: 0 <= j < n ==> prefix[j] == raw[j];
      ParseAsMap(prefix);
      ParseStep(raw);
      var entries := Entries(raw);
      assert entries[..n] == Entries(prefix);
      assert MapOf(entries) == MapOf(Entries(prefix))[HeaderKey(raw[n]) := HeaderValue(raw[n])];
    }
  }

  /**
   * When every entry is well formed, parsing succeeds, and a key takes its
   * value from the last entry that names it.
   */
  lemma ParseTopicHeadersLastWins(raw: seq<string>, i: nat, k: string)
    requires forall j :: 0 <= j < |raw| ==> WellFormedHeader(raw[j])
    requires i < |raw| && HeaderKey(raw[i]) == k
    requires forall j :: i < j < |raw| ==> HeaderKey(raw[j]) != k
    ensures ParseTopicHeaders(raw).Ok?
    ensures k in ParseTopicHeaders(raw).value && ParseTopicHeaders(raw).value[k] == HeaderValue(raw[i])
  {
    ParseAsMap(raw);
    MapOfLastWins(Entries(raw), i);
  }

  /**
   * Every expected header is present, under the lower-cased key, with an
   * equal value. An empty expectation matches anything; a nil actual map
   * behaves as an empty one.
   */
  predicate HeadersMatch(expected: map<string, string>, actual: map<string, string>)
  {
    forall k :: k in expected ==> Lower(k) in actual && actual[Lower(k)] == expected[k]
  }

  /** No expected headers: vacuously true. Some expected and none present: false. */
  lemma HeadersMatchEdges(expected: map<string, string>, actual: map<string, string>)
    ensures expected == map[] ==> HeadersMatch(expected, actual)
    ensures expected != map[] && actual == map[] ==> !HeadersMatch(expected, actual)
  {
    if expected != map[] && actual == map[] {
      var k :| k in expected;
      assert Lower(k) !in actual;
    }
  }

  // ---------------------------------------------------------------------
  // Feeds and feed selection
  // ---------------------------------------------------------------------

  /**
   * One reference feed as the matcher receives it from configuration:
   * `name` stands for the feed's display name, `topicHeaders` for its
   * `key=value` filter entries.
   */
  datatype FeedConfig = FeedConfig(name: string, topic: string, topicHeaders: seq<string>, matchFields: seq<string>)

  /** A feed with its header filter parsed. */
  datatype FeedMatcher = FeedMatcher(name: string, topic: string, topicHeaders: map<string, string>, fields: seq<string>)

  function CompileFeed(f: FeedConfig): (r: Result<FeedMatcher, EngineError>)
    ensures r.Ok? <==> ParseTopicHeaders(f.topicHeaders).Ok?
    ensures r.Ok? ==> r.value == FeedMatcher(f.name, f.topic, ParseTopicHeaders(f.topicHeaders).value, f.matchFields)
    ensures r.Err? ==> r.error == ParseTopicHeaders(f.topicHeaders).error
  {
    match ParseTopicHeaders(f.topicHeaders)
    case Err(e) => Err(e)
    case Ok(h) => Ok(FeedMatcher(f.name, f.topic, h, f.matchFields))
  }

  predicate Accepts(f: FeedMatcher, topic: string, headers: map<string, string>)
  {
    f.topic == topic && HeadersMatch(f.topicHeaders, headers)
  }

  /** Index of the first feed at or after `from` that accepts the message, in configuration order. */
  function FirstFeed(feeds: seq<FeedMatcher>, topic: string, headers: map<string, string>, from: nat): (r: Option<nat>)
    requires from <= |feeds|
    ensures r.Some? ==> from <= r.value < |feeds| && Accepts(feeds[r.value], topic, headers)
    ensures r.Some? ==> forall j :: from <= j < r.value ==> !Accepts(feeds[j], topic, headers)
    ensures r.None? ==> forall j :: from <= j < |feeds| ==> !Accepts(feeds[j], topic, headers)
    decreases |feeds| - from
  {
    if from == |feeds| then None
    else if Accepts(feeds[from], topic, headers) then Some(from)
    else FirstFeed(feeds, topic, headers, from + 1)
  }

  /** What `json.Unmarshal` into `map[string]any` yields: an object, or nothing for `null`. */
  function ObjectBody(payload: Decoded): (r: Option<map<string, Json>>)
    ensures r.Some? <==> payload.Parsed? && (payload.value.Object? || payload.value.Null?)
    ensures r.Some? && payload.value.Object? ==> r.value == payload.value.fields
    ensures payload == Parsed(Null) ==> r == Some(map[])
  {
    match payload
    case Parsed(Object(fields)) => Some(fields)
    case Parsed(Null) => Some(map[])
    case _ => None
  }

  /** The feed a reference message resolves to and the values it yields, or why it yields none. */
  datatype Extraction = Extraction(feedName: string, values: Result<seq<string>, EngineError>)

  function ReferenceValues(feeds: seq<FeedMatcher>, topic: string, headers: map<string, string>, payload: Decoded): (r: Extraction)
    ensures FirstFeed(feeds, topic, headers, 0).None? ==> r == Extraction("", Err(NoMatchingFeed(topic)))
    ensures FirstFeed(feeds, topic, headers, 0).Some? ==> r.feedName == feeds[FirstFeed(feeds, topic, headers, 0).value].name
    ensures FirstFeed(feeds, topic, headers, 0).Some? && ObjectBody(payload).None? ==> r.values == Err(InvalidPayload)
    ensures FirstFeed(feeds, topic, headers, 0).Some? && ObjectBody(payload).Some? ==>
      r.values == ExtractMatchValues(ObjectBody(payload).value, feeds[FirstFeed(feeds, topic, headers, 0).value].fields)
  {
    match FirstFeed(feeds, topic, headers, 0)
    case None => Extraction("", Err(NoMatchingFeed(topic)))
    case Some(i) =>
      match ObjectBody(payload)
      case None => Extraction(feeds[i].name, Err(InvalidPayload))
      case Some(body) => Extraction(feeds[i].name, ExtractMatchValues(body, feeds[i].fields))
  }

  /** Some variant of some value in `values` is already cached. */
  predicate AnyVariantCached(values: seq<string>, cached: set<string>)
  {
    exists i :: 0 <= i < |values| && !(YearVariants(values[i]) !! cached)
  }

  /** Some leaf anywhere in `payload` has a variant in `cached`. */
  ghost predicate SomeLeafCached(payload: Json, cached: set<string>)
  {
    exists s :: HasLeaf(payload, s) && !(YearVariants(s) !! cached)
  }

  /**
   * Forwarding looks at every leaf anywhere in the payload: it matches iff
   * some leaf has some variant in the cache.
   */
  lemma ForwardAnywhere(payload: Json, cached: set<string>)
    ensures AnyVariantCached(Flatten(payload), cached) <==> SomeLeafCached(payload, cached)
  {
    var vals := Flatten(payload);
    if AnyVariantCached(vals, cached) {
      var i :| 0 <= i < |vals| && !(YearVariants(vals[i]) !! cached);
      FlattenLeaves(payload, vals[i]);
    }
    if SomeLeafCached(payload, cached) {
      var s :| HasLeaf(payload, s) && !(YearVariants(s) !! cached);
      FlattenLeaves(payload, s);
      var i :| 0 <= i < |vals| && vals[i] == s;
    }
  }

  // ---------------------------------------------------------------------
  // Matcher
  // ---------------------------------------------------------------------

  class Matcher {
    const routeID: string
    const feeds: seq<FeedMatcher>
    const store: MatchStore

    constructor (routeID: string, feeds: seq<FeedMatcher>, store: MatchStore)
      ensures this.routeID == routeID && this.feeds == feeds && this.store == store
    {
      this.routeID := routeID;
      this.feeds := feeds;
      this.store := store;
    }

    /** The first configured feed whose topic is equal and whose headers match. */
    method FeedFor(topic: string, headers: map<string, string>) returns (feed: FeedMatcher, ok: bool)
      ensures ok <==> FirstFeed(feeds, topic, headers, 0).Some?
      ensures ok ==> feed == feeds[FirstFeed(feeds, topic, headers, 0).value]
    {
      var i := 0;
      while i < |feeds|
        invariant 0 <= i <= |feeds|
        invariant FirstFeed(feeds, topic, headers, 0) == FirstFeed(feeds, topic, headers, i)
      {
        var f := feeds[i];
        if f.topic != topic {
          i := i + 1;
          continue;
        }
        if !HeadersMatch(f.topicHeaders, headers) {
          i := i + 1;
          continue;
        }
        return f, true;
      }
      return FeedMatcher("", "", map[], []), false;
    }

    /**
     * Adds every variant of every value under this route and reports whether
     * any of them was new. Only this route's set changes.
     */
    method AddValues(values: seq<string>) returns (added: bool)
      modifies store
      ensures store.sets == Insert(old(store.sets), routeID, AllVariants(values))
      ensures added <==> !(AllVariants(values) <= old(store.Get(routeID)))
    {
      added := false;
      ghost var base := store.sets;
      ghost var before := store.Get(routeID);
      var i := 0;
      while i < |values|
        invariant 0 <= i <= |values|
        invariant store.sets == Insert(base, routeID, AllVariants(values[..i]))
        invariant added <==> !(AllVariants(values[..i]) <= before)
      {
        ghost var prior := AllVariants(values[..i]);
        var isNew := AddEach(YearVariants(values[i]));
        InsertTwice(base, routeID, prior, YearVariants(values[i]));
        NewSomewhere(before, prior, YearVariants(values[i]));
        AllVariantsPrefix(values, i);
        if isNew {
          added := true;
        }
        i := i + 1;
      }
      assert values[..|values|] == values;
    }

    /**
     * The inner loop of AddValues: adds each of `variants` under this route,
     * in whatever order the set yields them.
     */
    method AddEach(variants: set<string>) returns (added: bool)
      modifies store
      ensures store.sets == Insert(old(store.sets), routeID, variants)
      ensures added <==> !(variants <= old(store.Get(routeID)))
    {
      added := false;
      ghost var base := store.sets;
      ghost var before := store.Get(routeID);
      var pending := variants;
      ghost var done: set<string> := {};
      while pending != {}
        invariant pending + done == variants && pending !! done
        invariant store.sets == Insert(base, routeID, done)
        invariant added <==> !(done <= before)
        decreases |pending|
      {
        var variant :| variant in pending;
        assert store.Get(routeID) == before + done;
        var isNew := store.Add(routeID, variant);
        assert isNew <==> !({variant} <= before + done);
        NewSomewhere(before, done, {variant});
        InsertTwice(base, routeID, done, {variant});
        if isNew {
          added := true;
        }
        assert (pending - {variant}) + (done + {variant}) == pending + done;
        pending := pending - {variant};
        done := done + {variant};
      }
    }

    /**
     * Resolves the feed, decodes the payload as an object, extracts the
     * feed's fields and adds all their variants. On any error the store is
     * left as it was; on success `added` says whether anything was new.
     */
    method ProcessReference(topic: string, headers: map<string, string>, payload: Decoded)
      returns (added: bool, feedName: string, err: Option<EngineError>)
      modifies store
      ensures var ex := ReferenceValues(feeds, topic, headers, payload);
        && feedName == ex.feedName
        && (ex.values.Err? ==> err == Some(ex.values.error) && !added && store.sets == old(store.sets))
        && (ex.values.Ok? ==>
              (&& err.None?
               && store.sets == Insert(old(store.sets), routeID, AllVariants(ex.values.value))
               && (added <==> !(AllVariants(ex.values.value) <= old(store.Get(routeID))))))
    {
      var feed, ok := FeedFor(topic, headers);
      if !ok {
        return false, "", Some(NoMatchingFeed(topic));
      }
      var body := ObjectBody(payload);
      if body.None? {
        return false, feed.name, Some(InvalidPayload);
      }
      var values := ExtractMatchValues(body.value, feed.fields);
      if values.Err? {
        return false, feed.name, Some(values.error);
      }
      added := AddValues(values.value);
      return added, feed.name, None;
    }

    /**
     * Decodes the payload, flattens it to its leaves and answers whether any
     * variant of any leaf is cached for this route. Never changes the store.
     */
    method ShouldForward(payload: Decoded) returns (forward: bool, err: Option<EngineError>)
      ensures payload.Malformed? ==> !forward && err == Some(InvalidPayload)
      ensures payload.Parsed? ==> err.None? && (forward <==> AnyVariantCached(Flatten(payload.value), store.Get(routeID)))
    {
      if payload.Malformed? {
        return false, Some(InvalidPayload);
      }
      var values := Flatten(payload.value);
      ghost var cached := store.Get(routeID);
      var i := 0;
      while i < |values|
        invariant 0 <= i <= |values|
        invariant forall j :: 0 <= j < i ==> YearVariants(values[j]) !! cached
      {
        var variants := YearVariants(values[i]);
        var pending := variants;
        while pending != {}
          invariant pending <= variants
          invariant (variants - pending) !! cached
          decreases pending
        {
          var variant :| variant in pending;
          var hit := store.Contains(routeID, variant);
          if hit {
            assert variant in variants * cached;
            return true, None;
          }
          pending := pending - {variant};
        }
        assert variants !! cached;
        i := i + 1;
      }
      return false, None;
    }

    /** The number of values cached for this route. */
    method Size() returns (n: int)
      ensures n == |store.Get(routeID)|
    {
      n := store.Size(routeID);
    }
  }

  /**
   * `NewMatcher`: parses every feed's header filter, in order, and fails with
   * the first malformed one.
   */
  method NewMatcher(routeID: string, feeds: seq<FeedConfig>, store: MatchStore) returns (r: Result<Matcher, EngineError>)
    ensures r.Err? <==> exists i :: 0 <= i < |feeds| && CompileFeed(feeds[i]).Err?
    ensures r.Err? ==> exists i :: 0 <= i < |feeds| && CompileFeed(feeds[i]) == Err(r.error)
                                   && forall j :: 0 <= j < i ==> CompileFeed(feeds[j]).Ok?
    ensures r.Ok? ==> fresh(r.value) && r.value.routeID == routeID && r.value.store == store
    ensures r.Ok? ==> |r.value.feeds| == |feeds|
                      && forall i :: 0 <= i < |feeds| ==> CompileFeed(feeds[i]) == Ok(r.value.feeds[i])
  {
    var compiled: seq<FeedMatcher> := [];
    var i := 0;
    while i < |feeds|
      invariant 0 <= i <= |feeds|
      invariant |compiled| == i
      invariant forall j :: 0 <= j < i ==> CompileFeed(feeds[j]) == Ok(compiled[j])
    {
      var c := CompileFeed(feeds[i]);
      if c.Err? {
        return Err(c.error);
      }
      compiled := compiled + [c.value];
      i := i + 1;
    }
    var m := new Matcher(routeID, compiled, store);
    return Ok(m);
  }
}
