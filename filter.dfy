/**
 * The helpers of the filter command (cmd/filter/main.go): the slug that
 * keys a route, the topics a route's reference collector reads, the copy
 * of a Kafka message that is forwarded, and how the two admin endpoints
 * decide their status code and which routes they feed.
 */
module Filter {
  import opened Wrappers
  import opened Text
  import Config
  import opened Store
  import opened Engine

  // ---------------------------------------------------------------------
  // slug and routeKey
  // ---------------------------------------------------------------------

  /** The characters the slug replacer turns into '-'. */
  predicate IsSlugSeparator(c: char)
  {
    c == ' ' || c == '/' || c == '\\' || c == '.'
  }

  function SlugChar(c: char): char
  {
    if IsSlugSeparator(c) then '-' else c
  }

  /**
   * Lower-cases its input, then replaces every space, slash, backslash and
   * dot by '-'. Each replaced text is one character long and no replacement
   * contains another's text, so the replacer works character by character.
   */
  function Slug(s: string): (r: string)
    ensures |r| == |s|
    ensures forall i :: 0 <= i < |r| ==> !IsSlugSeparator(r[i]) && !('A' <= r[i] <= 'Z')
    ensures forall i :: 0 <= i < |s| && !IsSlugSeparator(s[i]) && !('A' <= s[i] <= 'Z') ==> r[i] == s[i]
    ensures forall i :: 0 <= i < |s| && IsSlugSeparator(s[i]) ==> r[i] == '-'
    ensures forall i :: 0 <= i < |s| && !IsSlugSeparator(s[i]) ==> r[i] == LowerChar(s[i])
  {
    var lower := Lower(s);
    seq(|lower|, i requires 0 <= i < |lower| => SlugChar(lower[i]))
  }

  /** A slug is its own slug. */
  lemma SlugIdempotent(s: string)
    ensures Slug(Slug(s)) == Slug(s)
  {
    var r := Slug(s);
    assert forall i :: 0 <= i < |r| ==> Slug(r)[i] == r[i];
  }

  /** Names that differ only in case or in which separator they use share a slug. */
  lemma SlugIgnoresCaseAndSeparators(a: string, b: string)
    requires |a| == |b|
    requires forall i :: 0 <= i < |a| ==>
      (IsSlugSeparator(a[i]) && IsSlugSeparator(b[i])) || LowerChar(a[i]) == LowerChar(b[i])
    ensures Slug(a) == Slug(b)
  {
    assert forall i :: 0 <= i < |a| ==> Slug(a)[i] == Slug(b)[i] by {
      forall i | 0 <= i < |a|
        ensures Slug(a)[i] == Slug(b)[i]
      {
        assert Lower(a)[i] == LowerChar(a[i]) && Lower(b)[i] == LowerChar(b[i]);
        if !(IsSlugSeparator(a[i]) && IsSlugSeparator(b[i])) {
          assert IsSlugSeparator(a[i]) <==> IsSlugSeparator(LowerChar(a[i]));
          assert IsSlugSeparator(b[i]) <==> IsSlugSeparator(LowerChar(b[i]));
        }
      }
    }
  }

  /** The id of a route: the slug of its display name. */
  function RouteKey(route: Config.Route): (key: string)
    ensures |key| == |Config.DisplayName(route)|
    ensures Slug(key) == key
  {
    SlugIdempotent(Config.DisplayName(route));
    Slug(Config.DisplayName(route))
  }

  /**
   * Two routes whose display names differ only in letter case, or in which
   * separator stands at a position, get the same key.
   */
  lemma RouteKeyIgnoresCaseAndSeparators(a: Config.Route, b: Config.Route)
    requires |Config.DisplayName(a)| == |Config.DisplayName(b)|
    requires forall i :: 0 <= i < |Config.DisplayName(a)| ==>
      (IsSlugSeparator(Config.DisplayName(a)[i]) && IsSlugSeparator(Config.DisplayName(b)[i]))
      || LowerChar(Config.DisplayName(a)[i]) == LowerChar(Config.DisplayName(b)[i])
    ensures RouteKey(a) == RouteKey(b)
  {
    SlugIgnoresCaseAndSeparators(Config.DisplayName(a), Config.DisplayName(b));
  }

  /** Every route that validates has a non-empty id. */
  lemma ValidRouteHasKey(route: Config.Route)
    requires Config.ValidateRoute(route).None?
    ensures RouteKey(route) != ""
  {
    Config.ValidRouteIsNamed(route);
  }

  // ---------------------------------------------------------------------
  // referenceTopics
  // ---------------------------------------------------------------------

  /** The topic of every reference feed, one per feed, in feed order. */
  method ReferenceTopics(feeds: seq<Config.ReferenceFeed>) returns (out: seq<string>)
    ensures |out| == |feeds|
    ensures forall i :: 0 <= i < |feeds| ==> out[i] == feeds[i].topic
  {
    out := [];
    for i := 0 to |feeds|
      invariant |out| == i
      invariant forall j :: 0 <= j < i ==> out[j] == feeds[j].topic
    {
      out := out + [feeds[i].topic];
    }
  }

  // ---------------------------------------------------------------------
  // cloneMessage
  // ---------------------------------------------------------------------

  newtype byte = b: int | 0 <= b < 256

  /** A Kafka record header; its value is a byte slice the header points to. */
  datatype Header = Header(key: string, value: array<byte>)

  /**
   * A Kafka message as the reader hands it over: where it came from, its
   * key, value and headers (byte and header slices, so arrays) and its
   * timestamp in nanoseconds.
   */
  datatype Message = Message(
    topic: string,
    partition: int,
    offset: int,
    highWaterMark: int,
    key: array<byte>,
    value: array<byte>,
    headers: array<Header>,
    time: int)

  /** A new array holding the elements of `src`. */
  method CopyOf<T>(src: array<T>) returns (dst: array<T>)
    ensures fresh(dst)
    ensures dst[..] == src[..]
  {
    dst := new T[src.Length](i requires 0 <= i < src.Length reads src => src[i]);
  }

  /**
   * The message that is forwarded: fresh copies of the key, the value and
   * the header slice with the same contents, and the same timestamp. The
   * source topic, partition and offsets are not carried over, and each
   * copied header still points at the original header's value bytes.
   */
  method CloneMessage(m: Message) returns (c: Message)
    ensures fresh(c.key) && fresh(c.value) && fresh(c.headers)
    ensures c.key[..] == m.key[..] && c.value[..] == m.value[..]
    ensures c.headers.Length == m.headers.Length && c.headers[..] == m.headers[..]
    ensures c.time == m.time
    ensures c.topic == "" && c.partition == 0 && c.offset == 0 && c.highWaterMark == 0
  {
    var key := CopyOf(m.key);
    var value := CopyOf(m.value);
    var headers := CopyOf(m.headers);
    c := Message("", 0, 0, 0, key, value, headers, m.time);
  }

  // ---------------------------------------------------------------------
  // The admin endpoints
  // ---------------------------------------------------------------------

  const StatusOK: int := 200
  const StatusCreated: int := 201
  const StatusBadRequest: int := 400
  const StatusNotFound: int := 404
  const StatusMethodNotAllowed: int := 405

  const ReferencePrefix: string := "/reference/"

  /**
   * What an admin request is before it touches the store: refused with a
   * status, or allowed to add `values`. A body that is not a JSON array of
   * strings is None.
   */
  datatype Gate = Refuse(status: int) | Proceed(values: seq<string>)

  /**
   * The checks of `/reference/{route}`, in order: POST only, a route id,
   * a known route, a decodable body, at least one value.
   */
  function ReferenceGate(httpMethod: string, routeID: string, known: bool, body: Option<seq<string>>): (g: Gate)
    ensures g.Proceed? <==> httpMethod == "POST" && routeID != "" && known && body.Some? && |body.value| > 0
    ensures g.Proceed? ==> g.values == body.value
    ensures httpMethod != "POST" ==> g == Refuse(StatusMethodNotAllowed)
    ensures httpMethod == "POST" && routeID == "" ==> g == Refuse(StatusBadRequest)
    ensures httpMethod == "POST" && routeID != "" && !known ==> g == Refuse(StatusNotFound)
    ensures httpMethod == "POST" && routeID != "" && known && (body.None? || |body.value| == 0) ==> g == Refuse(StatusBadRequest)
    ensures g.Refuse? ==> g.status in {StatusMethodNotAllowed, StatusBadRequest, StatusNotFound}
  {
    if httpMethod != "POST" then Refuse(StatusMethodNotAllowed)
    else if routeID == "" then Refuse(StatusBadRequest)
    else if !known then Refuse(StatusNotFound)
    else if body.None? then Refuse(StatusBadRequest)
    else if |body.value| == 0 then Refuse(StatusBadRequest)
    else Proceed(body.value)
  }

  /** The checks of `/referenceAllRoutes`: POST only, a decodable body, at least one value. */
  function AllRoutesGate(httpMethod: string, body: Option<seq<string>>): (g: Gate)
    ensures g.Proceed? <==> httpMethod == "POST" && body.Some? && |body.value| > 0
    ensures g.Proceed? ==> g.values == body.value
    ensures httpMethod != "POST" ==> g == Refuse(StatusMethodNotAllowed)
    ensures httpMethod == "POST" ==> g.Refuse? ==> g.status == StatusBadRequest
  {
    if httpMethod != "POST" then Refuse(StatusMethodNotAllowed)
    else if body.None? then Refuse(StatusBadRequest)
    else if |body.value| == 0 then Refuse(StatusBadRequest)
    else Proceed(body.value)
  }

  /** The matchers of the running bridge: each keyed by its own route id, all over one store. */
  predicate Wired(matchers: map<string, Matcher>, store: MatchStore)
  {
    forall id :: id in matchers ==> matchers[id].routeID == id && matchers[id].store == store
  }

  /**
   * `/reference/{route}`: a request that passes the gate adds every variant
   * of its values under that route only, and answers 201 if any of them
   * was new, else 200; a refused request leaves the store as it was.
   */
  method HandleReference(matchers: map<string, Matcher>, store: MatchStore, httpMethod: string, path: string, body: Option<seq<string>>)
    returns (status: int)
    requires Wired(matchers, store)
    modifies store
    ensures var routeID := TrimPrefix(path, ReferencePrefix);
      match ReferenceGate(httpMethod, routeID, routeID in matchers, body)
      case Refuse(s) => status == s && store.sets == old(store.sets)
      case Proceed(values) =>
        && store.sets == Insert(old(store.sets), routeID, AllVariants(values))
        && (status == StatusCreated <==> !(AllVariants(values) <= old(store.Get(routeID))))
        && status in {StatusOK, StatusCreated}
  {
    var routeID := TrimPrefix(path, ReferencePrefix);
    var gate := ReferenceGate(httpMethod, routeID, routeID in matchers, body);
    if gate.Refuse? {
      return gate.status;
    }
    var added := matchers[routeID].AddValues(gate.values);
    status := if added then StatusCreated else StatusOK;
  }

  /**
   * AddValues on every matcher, in whatever order the map yields them:
   * every configured route gains every variant of `values`, no other route
   * changes, and the result says whether some route gained a value.
   */
  method AddToAllRoutes(matchers: map<string, Matcher>, store: MatchStore, values: seq<string>) returns (added: bool)
    requires Wired(matchers, store)
    modifies store
    ensures Reflects(store.sets, old(store.sets), matchers.Keys, AllVariants(values))
    ensures added <==> SomeGains(old(store.sets), matchers.Keys, AllVariants(values))
  {
    ghost var variants := AllVariants(values);
    ghost var before := store.sets;
    added := false;
    var pending := matchers.Keys;
    ghost var done: set<string> := {};
    while pending != {}
      invariant done == matchers.Keys - pending && pending <= matchers.Keys
      invariant Reflects(store.sets, before, done, variants)
      invariant added <==> SomeGains(before, done, variants)
      decreases |pending|
    {
      var id :| id in pending;
      var gained := AddToRoute(matchers[id], store, values, before, done);
      SomeGainsStep(before, done, id, variants);
      added := added || gained;
      pending := pending - {id};
      done := done + {id};
    }
    assert done == matchers.Keys;
  }

  /**
   * One step of AddToAllRoutes: AddValues on the matcher of a route not
   * visited yet, whose set is therefore still as it was at the start.
   */
  method AddToRoute(m: Matcher, store: MatchStore, values: seq<string>, ghost before: map<string, set<string>>, ghost done: set<string>)
    returns (gained: bool)
    requires m.store == store && m.routeID !in done
    requires Reflects(store.sets, before, done, AllVariants(values))
    modifies store
    ensures Reflects(store.sets, before, done + {m.routeID}, AllVariants(values))
    ensures gained <==> Gains(before, m.routeID, AllVariants(values))
  {
    ghost var prior := store.sets;
    assert Lookup(prior, m.routeID) == Lookup(before, m.routeID);
    gained := m.AddValues(values);
    InsertOneRoute(prior, before, m.routeID, AllVariants(values), done);
  }

  /** Adding `variants` to `route` in `sets` adds something new. */
  predicate Gains(sets: map<string, set<string>>, route: string, variants: set<string>)
  {
    !(variants <= Lookup(sets, route))
  }

  /** Some route of `routes` gains something from `variants`. */
  predicate SomeGains(before: map<string, set<string>>, routes: set<string>, variants: set<string>)
  {
    exists id :: id in routes && Gains(before, id, variants)
  }

  lemma SomeGainsStep(before: map<string, set<string>>, routes: set<string>, route: string, variants: set<string>)
    ensures SomeGains(before, routes + {route}, variants) <==> SomeGains(before, routes, variants) || Gains(before, route, variants)
  {
    if SomeGains(before, routes + {route}, variants) {
      var w :| w in routes + {route} && Gains(before, w, variants);
      if w != route {
        assert w in routes;
      }
    }
  }

  /** `sets` is `before` with `variants` added to every route of `done` and to no other. */
  ghost predicate Reflects(sets: map<string, set<string>>, before: map<string, set<string>>, done: set<string>, variants: set<string>)
  {
    forall id {:trigger Lookup(sets, id)} :: Lookup(sets, id) == if id in done then Lookup(before, id) + variants else Lookup(before, id)
  }

  /** One more route gaining `variants` extends the routes that have gained them. */
  lemma InsertOneRoute(prior: map<string, set<string>>, before: map<string, set<string>>, route: string, variants: set<string>, done: set<string>)
    requires route !in done
    requires Reflects(prior, before, done, variants)
    ensures Reflects(Insert(prior, route, variants), before, done + {route}, variants)
  {
  }

  /**
   * `/referenceAllRoutes`: a request that passes the gate adds every
   * variant of its values under every configured route and answers 201
   * iff some route gained a value, else 200; a refused request leaves the
   * store as it was.
   */
  method HandleReferenceAllRoutes(matchers: map<string, Matcher>, store: MatchStore, httpMethod: string, body: Option<seq<string>>)
    returns (status: int)
    requires Wired(matchers, store)
    modifies store
    ensures match AllRoutesGate(httpMethod, body)
      case Refuse(s) => status == s && store.sets == old(store.sets)
      case Proceed(values) =>
        && Reflects(store.sets, old(store.sets), matchers.Keys, AllVariants(values))
        && (status == StatusCreated <==> SomeGains(old(store.sets), matchers.Keys, AllVariants(values)))
        && status in {StatusOK, StatusCreated}
  {
    var gate := AllRoutesGate(httpMethod, body);
    if gate.Refuse? {
      return gate.status;
    }
    var added := AddToAllRoutes(matchers, store, gate.values);
    status := if added then StatusCreated else StatusOK;
  }
}
