/**
 * The allow-list store. `ISNStore` is the single set that
 * internal/store/store.go defines; `MatchStore` is the route-keyed store that
 * the matcher and the store test call (a map from route id to a set of
 * values), whose own source file is not part of this model. Both are
 * sequential here: the mutex around every Go method only serialises calls.
 */
module Store {

  // ---------------------------------------------------------------------
  // ISNStore: one set of identifiers
  // ---------------------------------------------------------------------

  class ISNStore {
    var values: set<string>

    /** `NewISNStore`: an empty store. */
    constructor ()
      ensures values == {}
    {
      values := {};
    }

    /**
     * Records `isn`; reports whether it was absent. The set gains exactly
     * `isn`, so membership of every other value is unchanged and the size
     * grows by one exactly when the result is true.
     */
    method Add(isn: string) returns (added: bool)
      modifies this
      ensures added <==> isn !in old(values)
      ensures values == old(values) + {isn}
      ensures isn in values
      ensures |values| == |old(values)| + (if added then 1 else 0)
    {
      if isn in values {
        return false;
      }
      values := values + {isn};
      return true;
    }

    /** Membership test; reads the set and changes nothing. */
    method Contains(isn: string) returns (ok: bool)
      ensures ok <==> isn in values
    {
      ok := isn in values;
    }

    /** Replaces the set by an empty one. */
    method Reset()
      modifies this
      ensures values == {}
      ensures |values| == 0
      ensures forall v :: v !in values
    {
      values := {};
    }

    /** The number of stored identifiers; changes nothing. */
    method Size() returns (n: int)
      ensures n == |values|
    {
      n := |values|;
    }
  }

  /**
   * Adding the same identifier twice: the second Add reports nothing new
   * and leaves the set as the first one left it.
   */
  method AddTwice(s: ISNStore, isn: string) returns (first: bool, second: bool, sizeAfterFirst: int, sizeAfterSecond: int)
    modifies s
    ensures first <==> isn !in old(s.values)
    ensures !second
    ensures sizeAfterSecond == sizeAfterFirst
    ensures s.values == old(s.values) + {isn}
  {
    first := s.Add(isn);
    sizeAfterFirst := s.Size();
    second := s.Add(isn);
    sizeAfterSecond := s.Size();
  }

  // ---------------------------------------------------------------------
  // MatchStore: one set per route
  // ---------------------------------------------------------------------

  /** The set cached for `route`; an unknown route has the empty set. */
  function Lookup(sets: map<string, set<string>>, route: string): set<string>
  {
    if route in sets then sets[route] else {}
  }

  /**
   * The store after adding each of `values` to the set of `route`, which the
   * first addition creates; adding nothing leaves the store as it was.
   */
  function Insert(sets: map<string, set<string>>, route: string, values: set<string>): (r: map<string, set<string>>)
    ensures Lookup(r, route) == Lookup(sets, route) + values
    ensures forall other :: other != route ==> Lookup(r, other) == Lookup(sets, other)
    ensures values == {} ==> r == sets
  {
    if values == {} then sets else sets[route := Lookup(sets, route) + values]
  }

  /** Two successive additions to one route are one addition of both. */
  lemma InsertTwice(sets: map<string, set<string>>, route: string, first: set<string>, second: set<string>)
    ensures Insert(Insert(sets, route, first), route, second) == Insert(sets, route, first + second)
  {
    if first == {} {
      assert first + second == second;
    } else if second == {} {
      assert first + second == first;
    } else {
      assert first + second != {};
      assert Lookup(sets, route) + first + second == Lookup(sets, route) + (first + second);
    }
  }

  /**
   * The number of (route, value) entries in the store. The choice of which
   * route to count first does not matter (TotalEntriesAnyRoute).
   */
  ghost function TotalEntries(sets: map<string, set<string>>): nat
    decreases |sets|
  {
    if sets == map[] then 0
    else
      var route :| route in sets;
      |sets[route]| + TotalEntries(sets - {route})
  }

  lemma MapRemoveSize(sets: map<string, set<string>>, route: string)
    requires route in sets
    ensures |sets - {route}| == |sets| - 1
  {
    assert (sets - {route}).Keys == sets.Keys - {route};
  }

  /** Counting any route first gives the same total. */
  lemma {:induction false} TotalEntriesAnyRoute(sets: map<string, set<string>>, route: string)
    requires route in sets
    ensures TotalEntries(sets) == |sets[route]| + TotalEntries(sets - {route})
    decreases |sets|
  {
    var first :| first in sets && TotalEntries(sets) == |sets[first]| + TotalEntries(sets - {first});
    if first != route {
      MapRemoveSize(sets, first);
      MapRemoveSize(sets, route);
      TotalEntriesAnyRoute(sets - {first}, route);
      TotalEntriesAnyRoute(sets - {route}, first);
      assert sets - {first} - {route} == sets - {route} - {first};
    }
  }

  class MatchStore {
    var sets: map<string, set<string>>

    /** `NewMatchStore`: no routes, no values. */
    constructor ()
      ensures sets == map[]
    {
      sets := map[];
    }

    function Get(route: string): set<string>
      reads this
    {
      Lookup(sets, route)
    }

    /**
     * Adds `value` under `route`; reports whether it was new for that route.
     * No other route's set changes.
     */
    method Add(route: string, value: string) returns (added: bool)
      modifies this
      ensures added <==> value !in old(Get(route))
      ensures sets == Insert(old(sets), route, {value})
    {
      added := value !in Get(route);
      sets := Insert(sets, route, {value});
    }

    /** Membership under one route; false for an unknown route; changes nothing. */
    method Contains(route: string, value: string) returns (ok: bool)
      ensures ok <==> value in Get(route)
    {
      ok := route in sets && value in sets[route];
    }

    /** Cardinality of one route's set; 0 for an unknown route; changes nothing. */
    method Size(route: string) returns (n: int)
      ensures n == |Get(route)|
    {
      n := if route in sets then |sets[route]| else 0;
    }

    /** Removes every value of every route and returns how many entries went. */
    method Clear() returns (removed: nat)
      modifies this
      ensures removed == TotalEntries(old(sets))
      ensures sets == map[]
      ensures forall route :: Get(route) == {}
    {
      removed := 0;
      var remaining := sets;
      ghost var total := TotalEntries(sets);
      while remaining != map[]
        invariant removed + TotalEntries(remaining) == total
        decreases |remaining|
      {
        var route :| route in remaining;
        TotalEntriesAnyRoute(remaining, route);
        MapRemoveSize(remaining, route);
        removed := removed + |remaining[route]|;
        remaining := remaining - {route};
      }
      sets := map[];
    }
  }

  /**
   * The store test: "one" and "two" under route-a and "one" under route-b are
   * three entries, which is what the first Clear returns; a cleared store
   * holds none, which is what a second Clear returns.
   */
  lemma ClearTestCounts()
    ensures TotalEntries(map["route-a" := {"one", "two"}, "route-b" := {"one"}]) == 3
    ensures TotalEntries(map[]) == 0
  {
    var sets := map["route-a" := {"one", "two"}, "route-b" := {"one"}];
    TotalEntriesAnyRoute(sets, "route-a");
    var rest := sets - {"route-a"};
    assert rest == map["route-b" := {"one"}];
    TotalEntriesAnyRoute(rest, "route-b");
    assert rest - {"route-b"} == map[];
    assert |{"one", "two"}| == 2;
  }

  /** The store test replayed on a MatchStore: three Adds, then two Clears. */
  method ClearScenario() returns (removed: nat, sizeA: int, sizeB: int, removedAgain: nat)
    ensures removed == 3 && sizeA == 0 && sizeB == 0 && removedAgain == 0
  {
    var s := new MatchStore();
    assert "route-a" != "route-b" by { assert "route-a"[6] != "route-b"[6]; }
    var added := s.Add("route-a", "one");
    assert {} + {"one"} == {"one"};
    assert s.sets == map["route-a" := {"one"}];
    added := s.Add("route-a", "two");
    assert {"one"} + {"two"} == {"one", "two"};
    assert s.sets == map["route-a" := {"one", "two"}];
    added := s.Add("route-b", "one");
    assert s.sets == map["route-a" := {"one", "two"}, "route-b" := {"one"}];
    ClearTestCounts();
    removed := s.Clear();
    sizeA := s.Size("route-a");
    sizeB := s.Size("route-b");
    removedAgain := s.Clear();
  }
}
