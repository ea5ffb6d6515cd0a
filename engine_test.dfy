/**
 * The scenarios of internal/engine/engine_test.go, stated over the model
 * and proved rather than run.
 */
module EngineTests {
  import opened Wrappers
  import opened Json
  import opened Store
  import opened Engine

  /** The reference payload both feeds of the matcher test read. */
  function Reference(): Json
  {
    Object(map["fieldA" := Str("value1"), "sub" := Object(map["fieldB" := Str("value2")])])
  }

  /** The source payload that matches nothing cached from the reference. */
  function NonMatching(): Json
  {
    Object(map["fieldA" := Str("other"), "sub" := Object(map["fieldB" := Str("different")])])
  }

  /** Extraction of a single path that resolves. */
  lemma ExtractOne(payload: map<string, Json>, f: string, v: Json)
    requires LookupField(payload, f) == Ok(v)
    ensures ExtractMatchValues(payload, [f]) == Ok([Render(v)])
  {
    var r := ExtractMatchValues(payload, [f]);
    assert r.Ok? && |r.value| == 1 && r.value[0] == Render(v);
    assert r.value == [Render(v)];
  }

  /** Extraction of two paths that resolve keeps their order. */
  lemma ExtractTwo(payload: map<string, Json>, f0: string, f1: string, v0: Json, v1: Json)
    requires LookupField(payload, f0) == Ok(v0) && LookupField(payload, f1) == Ok(v1)
    ensures ExtractMatchValues(payload, [f0, f1]) == Ok([Render(v0), Render(v1)])
  {
    var r := ExtractMatchValues(payload, [f0, f1]);
    assert r.Ok? && |r.value| == 2 && r.value[0] == Render(v0) && r.value[1] == Render(v1);
    assert r.value == [Render(v0), Render(v1)];
  }

  /** The two paths of the reference payload resolve to "value1" and "value2". */
  lemma ReferenceLookups()
    ensures LookupField(Reference().fields, "fieldA") == Ok(Str("value1"))
    ensures LookupField(Reference().fields, "sub.fieldB") == Ok(Str("value2"))
  {
    ReferenceLookupTop();
    ReferenceLookupNested();
  }

  /** The top-level path `fieldA` of the reference payload. */
  lemma ReferenceLookupTop()
    ensures LookupField(Reference().fields, "fieldA") == Ok(Str("value1"))
  {
    LookupTopLevel(Reference().fields, "fieldA");
  }

  /** The nested path `sub.fieldB` of the reference payload. */
  lemma ReferenceLookupNested()
    ensures LookupField(Reference().fields, "sub.fieldB") == Ok(Str("value2"))
  {
    var body := Reference().fields;
    var field := "sub" + "." + "fieldB";
    assert field == "sub.fieldB";
    LookupNested(body, "sub", "fieldB");
  }

  /** Field paths come back in the caller's order, not sorted: ["sub.fieldB", "fieldA"] gives ["value2", "value1"]. */
  lemma ExtractKeepsFieldOrder()
    ensures ExtractMatchValues(Reference().fields, ["sub.fieldB", "fieldA"]) == Ok(["value2", "value1"])
  {
    ReferenceLookups();
    ExtractTwo(Reference().fields, "sub.fieldB", "fieldA", Str("value2"), Str("value1"));
  }

  /** A missing field makes the whole extraction fail. */
  lemma ExtractMissingFieldFails()
    ensures ExtractMatchValues(map["fieldA" := Str("value1")], ["missing"]).Err?
  {
    LookupTopLevel(map["fieldA" := Str("value1")], "missing");
  }

  /** A value with no digits in front has only itself as a variant. */
  lemma PlainVariants(v: string)
    requires |v| > 0 && !('0' <= v[0] <= '9')
    ensures YearVariants(v) == {v}
  {
    YearVariantsCases(v);
  }

  /** The only leaves of the non-matching payload are "other" and "different". */
  lemma NonMatchingLeaves(s: string)
    requires HasLeaf(NonMatching(), s)
    ensures s == "other" || s == "different"
  {
    var m := NonMatching().fields;
    var k :| k in m && HasLeaf(m[k], s);
    if k == "sub" {
      var inner := m["sub"].fields;
      var k' :| k' in inner && HasLeaf(inner[k'], s);
    }
  }

  /**
   * The two feeds of the matcher test, as NewMatcher compiles them. The test
   * gives the feeds no name, so their display names are parameters.
   */
  function TestFeeds(nameA: string, nameB: string): seq<FeedMatcher>
  {
    [FeedMatcher(nameA, "feed-a", map[], ["fieldA"]), FeedMatcher(nameB, "feed-b", map[], ["sub.fieldB"])]
  }

  /** A reference on feed-a yields "value1"; on feed-b it yields "value2"; each reports its feed's name. */
  lemma TestReferenceValues(nameA: string, nameB: string)
    ensures ReferenceValues(TestFeeds(nameA, nameB), "feed-a", map[], Parsed(Reference())) == Extraction(nameA, Ok(["value1"]))
    ensures ReferenceValues(TestFeeds(nameA, nameB), "feed-b", map[], Parsed(Reference())) == Extraction(nameB, Ok(["value2"]))
  {
    var feeds := TestFeeds(nameA, nameB);
    assert "feed-a" != "feed-b" by { assert "feed-a"[5] != "feed-b"[5]; }
    assert FirstFeed(feeds, "feed-a", map[], 0) == Some(0);
    assert FirstFeed(feeds, "feed-b", map[], 0) == Some(1);
    ReferenceLookups();
    ExtractOne(Reference().fields, "fieldA", Str("value1"));
    ExtractOne(Reference().fields, "sub.fieldB", Str("value2"));
  }

  /** Once "value1" and "value2" are cached, the reference payload itself is forwarded. */
  lemma TestForwardSame()
    ensures AnyVariantCached(Flatten(Reference()), {"value1", "value2"})
  {
    ForwardAnywhere(Reference(), {"value1", "value2"});
    assert HasLeaf(Reference().fields["fieldA"], "value1");
    assert "value1" in YearVariants("value1");
    assert SomeLeafCached(Reference(), {"value1", "value2"});
  }

  /** A payload whose leaves are "other" and "different" is blocked... */
  lemma TestForwardOther()
    ensures !AnyVariantCached(Flatten(NonMatching()), {"value1", "value2"})
  {
    var cached := {"value1", "value2"};
    assert "other" !in cached by { assert "other"[0] == 'o'; }
    assert "different" !in cached by { assert "different"[0] == 'd'; }
    PlainVariants("other");
    PlainVariants("different");
    forall t | HasLeaf(NonMatching(), t)
      ensures YearVariants(t) !! cached
    {
      NonMatchingLeaves(t);
    }
    ForwardAnywhere(NonMatching(), cached);
  }

  /** ...until "other" has been injected by hand. */
  lemma TestForwardInjected()
    ensures AnyVariantCached(Flatten(NonMatching()), {"value1", "value2", "other"})
  {
    ForwardAnywhere(NonMatching(), {"value1", "value2", "other"});
    assert HasLeaf(NonMatching().fields["fieldA"], "other");
    assert "other" in YearVariants("other");
    assert SomeLeafCached(NonMatching(), {"value1", "value2", "other"});
  }

  /** A single plain value contributes only itself. */
  lemma PlainAllVariants(v: string)
    requires |v| > 0 && !('0' <= v[0] <= '9')
    ensures AllVariants([v]) == {v}
  {
    PlainVariants(v);
    assert [v][1..] == [];
  }

  /** NewMatcher over the two feeds of the matcher test. */
  method TestMatcher(s: MatchStore, nameA: string, nameB: string) returns (m: Matcher)
    ensures m.routeID == "route" && m.store == s && m.feeds == TestFeeds(nameA, nameB)
  {
    var feeds := [FeedConfig(nameA, "feed-a", [], ["fieldA"]), FeedConfig(nameB, "feed-b", [], ["sub.fieldB"])];
    assert CompileFeed(feeds[0]) == Ok(TestFeeds(nameA, nameB)[0]);
    assert CompileFeed(feeds[1]) == Ok(TestFeeds(nameA, nameB)[1]);
    var r := NewMatcher("route", feeds, s);
    m := r.value;
    assert m.feeds == TestFeeds(nameA, nameB);
  }

  /** Both references are new to an empty store and leave "value1" and "value2" cached. */
  method CacheReferences(m: Matcher, ghost nameA: string, ghost nameB: string) returns (addedA: bool, addedB: bool)
    requires m.feeds == TestFeeds(nameA, nameB) && m.store.Get(m.routeID) == {}
    modifies m.store
    ensures addedA && addedB && m.store.Get(m.routeID) == {"value1", "value2"}
  {
    TestReferenceValues(nameA, nameB);
    PlainAllVariants("value1");
    PlainAllVariants("value2");
    assert "value1" != "value2" by { assert "value1"[5] != "value2"[5]; }
    var err: Option<EngineError>;
    var feedName: string;
    addedA, feedName, err := m.ProcessReference("feed-a", map[], Parsed(Reference()));
    assert m.store.Get(m.routeID) == {"value1"};
    addedB, feedName, err := m.ProcessReference("feed-b", map[], Parsed(Reference()));
  }

  /**
   * The matcher test: feed-a caches "value1", feed-b caches "value2", the
   * reference payload is then forwarded, a payload holding only "other" and
   * "different" is not, until "other" is injected by hand. The outcome is
   * the same whatever the feeds' display names are.
   */
  method ReferenceThenForward(nameA: string, nameB: string) returns (addedA: bool, addedB: bool, forwardSame: bool, forwardOther: bool, injected: bool, forwardInjected: bool)
    ensures addedA && addedB && forwardSame && !forwardOther && injected && forwardInjected
  {
    var s := new MatchStore();
    var m := TestMatcher(s, nameA, nameB);
    addedA, addedB := CacheReferences(m, nameA, nameB);
    var err: Option<EngineError>;
    forwardSame, err := m.ShouldForward(Parsed(Reference()));
    TestForwardSame();
    forwardOther, err := m.ShouldForward(Parsed(NonMatching()));
    TestForwardOther();

    PlainAllVariants("other");
    assert "other" != "value1" && "other" != "value2" by { assert "other"[0] != "value1"[0]; }
    injected := m.AddValues(["other"]);
    assert s.Get("route") == {"value1", "value2", "other"};
    forwardInjected, err := m.ShouldForward(Parsed(NonMatching()));
    TestForwardInjected();
  }
}
