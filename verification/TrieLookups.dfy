/** Lookups after any history of adds to the route trie. */
module TrieLookups {
  import opened RouteArrays
  import opened RouteArrayLaws
  import opened RouteTries
  import opened TopRoutes

  /** One call of `route_trie_add`. */
  datatype Rate = Rate(prefix: string, route: Route)

  lemma {:induction false} AddRouteKeepsValid(t: Trie, prefix: string, r: Route)
    requires t.Valid()
    ensures AddRoute(t, prefix, r).Valid()
  {
    var t' := AddRoute(t, prefix, r);
    var d := DigitRun(prefix);
    assert prefix[..d] in t'.paths;
    if AllDigits(prefix) {
      assert prefix[..d] == prefix;
    }
    forall p, n | p in t'.paths && 0 <= n <= |p|
      ensures p[..n] in t'.paths
    {
      if p !in t.paths {
        var i :| 0 <= i <= d && p == prefix[..i];
        assert p[..n] == prefix[..n];
      }
    }
  }

  function Build(maxRoutes: Size, rates: seq<Rate>): (t: Trie)
    ensures t.Valid() && t.maxRoutes == maxRoutes
  {
    if rates == [] then NewTrie(maxRoutes)
    else
      var last := rates[|rates| - 1];
      var t := Build(maxRoutes, rates[..|rates| - 1]);
      AddRouteKeepsValid(t, last.prefix, last.route);
      AddRoute(t, last.prefix, last.route)
  }

  /** The routes that were added under exactly the prefix `p`, in order. */
  function RoutesFor(rates: seq<Rate>, p: string): seq<Route> {
    if rates == [] then []
    else
      var last := rates[|rates| - 1];
      var rs := RoutesFor(rates[..|rates| - 1], p);
      if last.prefix == p then rs + [last.route] else rs
  }

  ghost predicate AllNonzero(rates: seq<Rate>) {
    forall i :: 0 <= i < |rates| ==> rates[i].route.value != 0
  }

  lemma {:induction false} RoutesForIs(rates: seq<Rate>, p: string)
    ensures forall i :: 0 <= i < |rates| && rates[i].prefix == p ==> rates[i].route in RoutesFor(rates, p)
    ensures forall r :: r in RoutesFor(rates, p) ==> exists i :: 0 <= i < |rates| && rates[i] == Rate(p, r)
    decreases |rates|
  {
    if rates != [] {
      var n := |rates| - 1;
      var before := rates[..n];
      RoutesForIs(before, p);
      forall r | r in RoutesFor(rates, p)
        ensures exists i :: 0 <= i < |rates| && rates[i] == Rate(p, r)
      {
        if r in RoutesFor(before, p) {
          var i :| 0 <= i < |before| && before[i] == Rate(p, r);
          assert rates[i] == Rate(p, r);
        } else {
          assert rates[n] == Rate(p, r);
        }
      }
      forall i | 0 <= i < |rates| && rates[i].prefix == p
        ensures rates[i].route in RoutesFor(rates, p)
      {
        assert i < n ==> before[i] == rates[i];
      }
    }
  }

  /** The trie is the map from digit strings to the arrays that their own adds produced; adds under a prefix
      with any other character leave no entry. */
  lemma {:induction false} EntriesAre(maxRoutes: Size, rates: seq<Rate>, p: string)
    ensures var t := Build(maxRoutes, rates);
            && (p in t.entries <==> AllDigits(p) && RoutesFor(rates, p) != [])
            && (AllDigits(p) ==> t.At(p) == AddAll(Fresh(maxRoutes), RoutesFor(rates, p)))
    decreases |rates|
  {
    hide Add;
    if rates != [] {
      var last := rates[|rates| - 1];
      var before := rates[..|rates| - 1];
      EntriesAre(maxRoutes, before, p);
      AddAllStep(Fresh(maxRoutes), RoutesFor(before, p), last.route);
    }
  }

  /** The routes seen along the path of `key` from position `k` on, in the order in which they are offered. */
  function Collected(t: Trie, key: string, k: nat): seq<Route>
    requires t.Valid() && k <= |key|
    decreases |key| - k
  {
    t.RoutesAt(key[..k]) + if k == |key| then [] else Collected(t, key, k + 1)
  }

  lemma {:induction false} NothingBelow(t: Trie, key: string, k: nat)
    requires t.Valid() && k <= |key| && key[..k] !in t.paths
    ensures Collected(t, key, k) == []
    decreases |key| - k
  {
    if k < |key| {
      assert key[..k + 1][..k] == key[..k];
      NothingBelow(t, key, k + 1);
    }
  }

  /** A lookup of digits offers exactly the collected routes, and reports how many were kept. */
  lemma {:induction false} FindOffersCollected(t: Trie, key: string, k: nat, results: Table)
    requires t.Valid() && k <= |key| && AllDigits(key) && results.Valid()
    ensures var r := AddAll(results, Collected(t, key, k)); FindFrom(t, key, k, results) == (r, r.size)
    decreases |key| - k
  {
    hide Add;
    var here := t.RoutesAt(key[..k]);
    if k == |key| {
      assert Collected(t, key, k) == here;
    } else {
      AddAllConcat(results, here, Collected(t, key, k + 1));
      if key[..k + 1] in t.paths {
        FindOffersCollected(t, key, k + 1, AddAll(results, here));
      } else {
        NothingBelow(t, key, k + 1);
        assert here + [] == here;
      }
    }
  }

  /** The routes that a lookup offers from position `k` on, whatever the key. */
  function Offered(t: Trie, key: string, k: nat): seq<Route>
    requires t.Valid() && k <= |key|
    decreases |key| - k
  {
    t.RoutesAt(key[..k]) +
    if k < |key| && IsDigit(key[k]) && key[..k + 1] in t.paths then Offered(t, key, k + 1) else []
  }

  lemma {:induction false} FindOffers(t: Trie, key: string, k: nat, results: Table)
    requires t.Valid() && k <= |key| && results.Valid()
    ensures FindFrom(t, key, k, results).0 == AddAll(results, Offered(t, key, k))
    decreases |key| - k
  {
    hide Add;
    var here := t.RoutesAt(key[..k]);
    if k < |key| && IsDigit(key[k]) && key[..k + 1] in t.paths {
      AddAllConcat(results, here, Offered(t, key, k + 1));
      FindOffers(t, key, k + 1, AddAll(results, here));
    } else {
      assert Offered(t, key, k) == here;
    }
  }

  lemma {:induction false} InOffered(t: Trie, key: string, k: nat, r: Route)
    requires t.Valid() && k <= |key| && r in Offered(t, key, k)
    ensures exists n :: k <= n <= |key| && r in t.RoutesAt(key[..n])
    decreases |key| - k
  {
    if r !in t.RoutesAt(key[..k]) {
      InOffered(t, key, k + 1, r);
    }
  }

  /** The count of routes for a key of digits is the sum of the sizes of the arrays along its path. */
  lemma {:induction false} CountIsCollected(t: Trie, key: string, k: nat, count: nat)
    requires t.Valid() && k <= |key| && AllDigits(key)
    ensures CountFrom(t, key, k, count) == count + |Collected(t, key, k)|
    decreases |key| - k
  {
    if k < |key| {
      if key[..k + 1] in t.paths {
        CountIsCollected(t, key, k + 1, count + |t.RoutesAt(key[..k])|);
      } else {
        NothingBelow(t, key, k + 1);
      }
    }
  }

  /** With a bad character in the key the array is still filled from the digits before it, but 0 is reported
      exactly when there is a node for all of them or nothing was found. */
  lemma {:induction false} BadKeyExactly(t: Trie, key: string, k: nat, results: Table)
    requires t.Valid() && results.Valid() && k <= DigitRun(key) < |key| && key[..k] in t.paths
    ensures var run := key[..DigitRun(key)];
            var found := FindFrom(t, run, k, results).0;
            && FindFrom(t, key, k, results).0 == found
            && FindFrom(t, key, k, results).1 == if run in t.paths then 0 else found.size
    decreases |key| - k
  {
    hide Add, AddAll;
    var d := DigitRun(key);
    var run := key[..d];
    assert run[..k] == key[..k];
    if k < d {
      assert run[..k + 1] == key[..k + 1];
      if key[..k + 1] in t.paths {
        BadKeyExactly(t, key, k + 1, AddAll(results, t.RoutesAt(key[..k])));
      }
    }
  }

  /** With a bad character in the key no routes are counted exactly when there is a node for all digits before it;
      otherwise the count is that of those digits. */
  lemma {:induction false} BadKeyCountExactly(t: Trie, key: string, k: nat, count: nat)
    requires t.Valid() && k <= DigitRun(key) < |key| && key[..k] in t.paths
    ensures var run := key[..DigitRun(key)];
            CountFrom(t, key, k, count) == if run in t.paths then 0 else count + |Collected(t, run, k)|
    decreases |key| - k
  {
    var d := DigitRun(key);
    var run := key[..d];
    assert run[..k] == key[..k];
    if k < d {
      assert run[..k + 1] == key[..k + 1];
      if key[..k + 1] in t.paths {
        BadKeyCountExactly(t, key, k + 1, count + |t.RoutesAt(key[..k])|);
      } else {
        NothingBelow(t, run, k + 1);
      }
    }
  }

  ghost predicate Under(rate: Rate, key: string) {
    rate.prefix <= key
  }

  lemma {:induction false} InCollected(t: Trie, key: string, k: nat, r: Route)
    requires t.Valid() && k <= |key|
    ensures r in Collected(t, key, k) <==> exists n :: k <= n <= |key| && r in t.RoutesAt(key[..n])
    decreases |key| - k
  {
    if k < |key| {
      InCollected(t, key, k + 1, r);
    }
  }

  /** Every collected route was added under a prefix of the key. */
  lemma {:induction false} CollectedWasAdded(maxRoutes: Size, rates: seq<Rate>, key: string, r: Route)
    requires Usable(maxRoutes) && AllNonzero(rates) && AllDigits(key)
    requires r in Collected(Build(maxRoutes, rates), key, 0)
    ensures exists i :: 0 <= i < |rates| && Under(rates[i], key) && rates[i].route == r
  {
    var t := Build(maxRoutes, rates);
    InCollected(t, key, 0, r);
    var n :| 0 <= n <= |key| && r in t.RoutesAt(key[..n]);
    EntriesAre(maxRoutes, rates, key[..n]);
    RoutesForIs(rates, key[..n]);
    HistoryKeepsOrder(maxRoutes, RoutesFor(rates, key[..n]));
    var i :| 0 <= i < |rates| && rates[i] == Rate(key[..n], r);
    assert Under(rates[i], key);
  }

  /** Every add under a prefix of the key is matched by a collected route that does not cost more. */
  lemma {:induction false} AddedIsMatched(maxRoutes: Size, rates: seq<Rate>, key: string, i: nat)
    requires Usable(maxRoutes) && AllNonzero(rates) && AllDigits(key)
    requires i < |rates| && Under(rates[i], key)
    ensures exists r :: r in Collected(Build(maxRoutes, rates), key, 0) && r.cost <= rates[i].route.cost
  {
    var t := Build(maxRoutes, rates);
    var p := rates[i].prefix;
    var rs := RoutesFor(rates, p);
    assert p == key[..|p|];
    EntriesAre(maxRoutes, rates, p);
    RoutesForIs(rates, p);
    HistoryKeepsOrder(maxRoutes, rs);
    MinCostIs(rs);
    var r := t.At(p).slots[0];
    assert t.RoutesAt(p)[0] == r;
    InCollected(t, key, 0, r);
  }

  /** The main result, for capacities 1 to 254 and nonzero values: whatever was added before, looking up a key of
      digits finds something exactly when one of its prefixes was ever given a route, in order of cost, nothing
      that was not added, and first a route that costs the least ever added under any prefix of the key. */
  lemma {:induction false} LookupFindsCheapest(maxRoutes: Size, rates: seq<Rate>, key: string, capacity: Size)
    requires Usable(maxRoutes) && Usable(capacity) && AllNonzero(rates) && AllDigits(key)
    ensures var (found, n) := Find(Build(maxRoutes, rates), key, Fresh(capacity));
            && n == found.size && Sorted(found.Visible())
            && (n > 0 <==> exists i :: 0 <= i < |rates| && Under(rates[i], key))
            && (forall r :: r in found.Visible() ==>
                  exists i :: 0 <= i < |rates| && Under(rates[i], key) && rates[i].route == r)
            && (n > 0 ==> forall i :: 0 <= i < |rates| && Under(rates[i], key) ==>
                  found.Visible()[0].cost <= rates[i].route.cost)
  {
    hide Add, AddAll, Used, Collected;
    var t := Build(maxRoutes, rates);
    var all := Collected(t, key, 0);
    FindOffersCollected(t, key, 0, Fresh(capacity));
    forall r | r in all
      ensures r.value != 0 && exists i :: 0 <= i < |rates| && Under(rates[i], key) && rates[i].route == r
    {
      CollectedWasAdded(maxRoutes, rates, key, r);
    }
    HistoryKeepsOrder(capacity, all);
    if all != [] {
      assert all[0] in all;
      MinCostIs(all);
    }
    forall i | 0 <= i < |rates| && Under(rates[i], key)
      ensures all != [] && MinCost(all) <= rates[i].route.cost
    {
      AddedIsMatched(maxRoutes, rates, key, i);
    }
  }

  /** When the collected routes are harmless, the lookup keeps exactly the cheapest of them per key. */
  lemma {:induction false} LookupKeepsBest(t: Trie, key: string, capacity: Size)
    requires t.Valid() && AllDigits(key) && Usable(capacity) && Nonzero(Collected(t, key, 0))
    requires HarmlessHistory(capacity, Collected(t, key, 0))
    ensures IsBest(Collected(t, key, 0), capacity, Find(t, key, Fresh(capacity)).0.Visible(), false)
  {
    FindOffersCollected(t, key, 0, Fresh(capacity));
    HarmlessHistoryIsBest(capacity, Collected(t, key, 0));
  }
}
