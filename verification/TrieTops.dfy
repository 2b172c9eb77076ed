/** Lookups and mixed routing, stated over all the rates that were ever added. */
module TrieTops {
  import opened RouteArrays
  import opened RouteArrayLaws
  import opened RouteTries
  import opened TopRoutes
  import opened TrieLookups
  import opened LcrLookups
  import opened MixedRouting
  import opened MixedExactly

  // ---------------------------------------------------------------------------------------------
  // Crowded out twice: by the array of a node, then by the array of the lookup
  // ---------------------------------------------------------------------------------------------

  /** If at least `capacity` keys are offered at `cost` or less, the best list is full of routes that cost no more. */
  lemma {:induction false} Crowd(rs: seq<Route>, capacity: nat, best: seq<Route>, crowd: seq<Route>, cost: Cost)
    requires IsBest(rs, capacity, best, false) && capacity <= |crowd| && DistinctKeys(crowd)
    requires forall r :: r in crowd ==> r in rs && r.cost <= cost
    ensures |best| == capacity && forall b :: b in best ==> b.cost <= cost
  {
    hide Keys, DistinctKeys, IsBest;
    if |best| < capacity || exists b :: b in best && b.cost > cost {
      TooFew(rs, capacity, best, crowd, cost);
    }
    assert |best| <= capacity by { NotLonger(rs, capacity, best); }
  }

  lemma {:induction false} NotLonger(rs: seq<Route>, capacity: nat, best: seq<Route>)
    requires IsBest(rs, capacity, best, false)
    ensures |best| <= capacity
  {
  }

  lemma {:induction false} TooFew(rs: seq<Route>, capacity: nat, best: seq<Route>, crowd: seq<Route>, cost: Cost)
    requires IsBest(rs, capacity, best, false) && DistinctKeys(crowd)
    requires forall r :: r in crowd ==> r in rs && r.cost <= cost
    requires |best| < capacity || exists b :: b in best && b.cost > cost
    ensures |crowd| < capacity
  {
    hide Keys, DistinctKeys, IsBest;
    NotLonger(rs, capacity, best);
    KeyCount(crowd);
    KeyCount(best);
    if |best| < capacity {
      CrowdIsListed(rs, capacity, best, crowd, cost, Keys(best));
    } else {
      var b :| b in best && b.cost > cost;
      KeyOf(best, b);
      CrowdIsListed(rs, capacity, best, crowd, cost, Keys(best) - {(b.value, b.kind)});
    }
  }

  lemma {:induction false} KeyOf(rs: seq<Route>, r: Route)
    requires r in rs
    ensures (r.value, r.kind) in Keys(rs)
  {
  }

  lemma {:induction false} CrowdIsListed(rs: seq<Route>, capacity: nat, best: seq<Route>, crowd: seq<Route>, cost: Cost,
                                         keys: set<(Value, Kind)>)
    requires IsBest(rs, capacity, best, false) && forall r :: r in crowd ==> r in rs && r.cost <= cost
    requires (|best| < capacity && keys == Keys(best))
             || exists b :: b in best && b.cost > cost && keys == Keys(best) - {(b.value, b.kind)}
    ensures Keys(crowd) <= keys && |Keys(crowd)| <= |keys|
  {
    forall r | r in crowd ensures (r.value, r.kind) in keys {
      var c := ChampionOf(rs, r);
    }
    Smaller(Keys(crowd), keys);
  }

  lemma {:induction false} Smaller<T>(a: set<T>, b: set<T>)
    requires a <= b
    ensures |a| <= |b|
  {
    assert b == a + (b - a);
  }

  /** All routes that were added under some prefix of the key, in order. */
  function AllUnder(rates: seq<Rate>, key: string): seq<Route> {
    if rates == [] then []
    else
      var rs, last := AllUnder(rates[..|rates| - 1], key), rates[|rates| - 1];
      if last.prefix <= key then rs + [last.route] else rs
  }

  lemma {:induction false} AllUnderIs(rates: seq<Rate>, key: string, r: Route)
    ensures r in AllUnder(rates, key) <==> exists n :: 0 <= n <= |key| && r in RoutesFor(rates, key[..n])
    decreases |rates|
  {
    if rates != [] {
      var last, rest := rates[|rates| - 1], rates[..|rates| - 1];
      AllUnderIs(rest, key, r);
      assert forall n :: 0 <= n <= |key| && r in RoutesFor(rest, key[..n]) ==> r in RoutesFor(rates, key[..n]);
      if last.prefix <= key {
        assert key[..|last.prefix|] == last.prefix;
        assert last.route in RoutesFor(rates, key[..|last.prefix|]);
      }
    }
  }

  /** Every node on the path keeps the best of its own history. */
  ghost predicate HarmlessPath(maxRoutes: Size, rates: seq<Rate>, key: string) {
    forall n :: 0 <= n <= |key| ==> HarmlessHistory(maxRoutes, RoutesFor(rates, key[..n]))
  }

  lemma {:induction false} NodeIsBest(maxRoutes: Size, rates: seq<Rate>, p: string)
    requires Usable(maxRoutes) && AllNonzero(rates) && AllDigits(p) && HarmlessHistory(maxRoutes, RoutesFor(rates, p))
    ensures IsBest(RoutesFor(rates, p), maxRoutes, Build(maxRoutes, rates).RoutesAt(p), false)
    ensures DistinctKeys(Build(maxRoutes, rates).RoutesAt(p))
  {
    hide Add, AddAll, IsBest;
    var rs, best := RoutesFor(rates, p), Build(maxRoutes, rates).RoutesAt(p);
    EntriesAre(maxRoutes, rates, p);
    RoutesForIs(rates, p);
    HarmlessHistoryIsBest(maxRoutes, rs);
    HistoryKeepsOrder(maxRoutes, rs);
    BestHasDistinctKeys(rs, maxRoutes, best, |best|);
    assert best[..|best|] == best;
  }

  /** A route that was added anywhere on the path: the collected routes include one of its key that costs no more, or a
      crowd of others that cost no more. */
  lemma {:induction false} KeptOrCrowded(maxRoutes: Size, rates: seq<Rate>, key: string, r: Route)
    returns (c: Route, crowd: seq<Route>)
    requires Usable(maxRoutes) && AllNonzero(rates) && AllDigits(key) && HarmlessPath(maxRoutes, rates, key)
    requires r in AllUnder(rates, key)
    ensures SameKey(c, r) && c.cost <= r.cost && c in AllUnder(rates, key)
    ensures var collected := Collected(Build(maxRoutes, rates), key, 0);
            c in collected
            || (|crowd| == maxRoutes && DistinctKeys(crowd) && forall x :: x in crowd ==> x in collected && x.cost <= c.cost)
  {
    hide Build, Collected, HarmlessHistory, DistinctKeys;
    var t := Build(maxRoutes, rates);
    AllUnderIs(rates, key, r);
    var n :| 0 <= n <= |key| && r in RoutesFor(rates, key[..n]);
    c := ChampionOf(RoutesFor(rates, key[..n]), r);
    AllUnderIs(rates, key, c);
    NodeIsBest(maxRoutes, rates, key[..n]);
    crowd := t.RoutesAt(key[..n]);
    forall x | x in crowd ensures x in Collected(t, key, 0) {
      InCollected(t, key, 0, x);
    }
  }

  lemma {:induction false} CollectedIsUnder(maxRoutes: Size, rates: seq<Rate>, key: string, r: Route)
    requires Usable(maxRoutes) && AllNonzero(rates) && AllDigits(key) && r in Collected(Build(maxRoutes, rates), key, 0)
    ensures r in AllUnder(rates, key)
  {
    hide Build, Collected, HarmlessHistory, AllUnder;
    CollectedWasAdded(maxRoutes, rates, key, r);
    var i :| 0 <= i < |rates| && Under(rates[i], key) && rates[i].route == r;
    RoutesForIs(rates, rates[i].prefix);
    assert key[..|rates[i].prefix|] == rates[i].prefix;
    AllUnderIs(rates, key, r);
  }

  lemma {:induction false} BestStaysChampion(maxRoutes: Size, rates: seq<Rate>, key: string, capacity: Size,
                                             best: seq<Route>, b: Route)
    requires Usable(maxRoutes) && capacity <= maxRoutes && AllNonzero(rates) && AllDigits(key)
    requires HarmlessPath(maxRoutes, rates, key) && b in best
    requires IsBest(Collected(Build(maxRoutes, rates), key, 0), capacity, best, false)
    ensures Champion(AllUnder(rates, key), b)
  {
    hide Build, Collected, AllUnder, DistinctKeys, HarmlessPath, IsBest;
    var collected := Collected(Build(maxRoutes, rates), key, 0);
    assert Champion(collected, b) by { BestAreChampions(collected, capacity, best, b); }
    CollectedIsUnder(maxRoutes, rates, key, b);
    forall r | r in AllUnder(rates, key) && SameKey(r, b) ensures b.cost <= r.cost {
      var c, crowd := KeptOrCrowded(maxRoutes, rates, key, r);
      if c !in collected {
        Crowd(collected, capacity, best, crowd, c.cost);
      }
    }
  }

  lemma {:induction false} BestAreChampions(rs: seq<Route>, capacity: nat, best: seq<Route>, b: Route)
    requires IsBest(rs, capacity, best, false) && b in best
    ensures Champion(rs, b)
  {
  }

  lemma {:induction false} LeftOutIsCrowded(maxRoutes: Size, rates: seq<Rate>, key: string, capacity: Size,
                                            best: seq<Route>, c: Route)
    requires Usable(maxRoutes) && capacity <= maxRoutes && AllNonzero(rates) && AllDigits(key)
    requires HarmlessPath(maxRoutes, rates, key) && c !in best && Champion(AllUnder(rates, key), c)
    requires IsBest(Collected(Build(maxRoutes, rates), key, 0), capacity, best, false)
    ensures |best| == capacity && forall b :: b in best ==> b.cost <= c.cost
  {
    hide Build, Collected, AllUnder, DistinctKeys, HarmlessPath, IsBest;
    var collected := Collected(Build(maxRoutes, rates), key, 0);
    var d, crowd := KeptOrCrowded(maxRoutes, rates, key, c);
    assert d == c;
    if c in collected {
      forall r | r in collected ensures r in AllUnder(rates, key) {
        CollectedIsUnder(maxRoutes, rates, key, r);
      }
      ExcludedBy(collected, capacity, best, c);
    } else {
      Crowd(collected, capacity, best, crowd, c.cost);
    }
  }

  lemma {:induction false} ExcludedBy(rs: seq<Route>, capacity: nat, best: seq<Route>, c: Route)
    requires IsBest(rs, capacity, best, false) && Champion(rs, c) && c !in best
    ensures |best| == capacity && forall b :: b in best ==> b.cost <= c.cost
  {
  }

  /** Over all rates: if no node on the path and not the lookup itself ever exposes a stale route, and the nodes have room
      for as many routes as the lookup, then the lookup keeps exactly the cheapest routes per key of all that were ever
      added under any prefix of the number. */
  lemma {:induction false} LookupKeepsBestOfAll(maxRoutes: Size, rates: seq<Rate>, key: string, capacity: Size)
    requires Usable(maxRoutes) && Usable(capacity) && capacity <= maxRoutes && AllNonzero(rates) && AllDigits(key)
    requires HarmlessPath(maxRoutes, rates, key)
    requires HarmlessHistory(capacity, Collected(Build(maxRoutes, rates), key, 0))
    ensures IsBest(AllUnder(rates, key), capacity, Find(Build(maxRoutes, rates), key, Fresh(capacity)).0.Visible(), false)
  {
    hide Build, Collected, AllUnder, HarmlessPath, HarmlessHistory, Find, Champion;
    var t := Build(maxRoutes, rates);
    var best := Find(t, key, Fresh(capacity)).0.Visible();
    BuiltIsSound(maxRoutes, rates);
    AllNonzeroCollected(t, key);
    LookupKeepsBest(t, key, capacity);
    forall b | b in best ensures Champion(AllUnder(rates, key), b) {
      BestStaysChampion(maxRoutes, rates, key, capacity, best, b);
    }
    forall c | Champion(AllUnder(rates, key), c) && c !in best
      ensures |best| == capacity && forall b :: b in best ==> b.cost <= c.cost
    {
      LeftOutIsCrowded(maxRoutes, rates, key, capacity, best, c);
    }
  }

  lemma {:induction false} BuiltIsSound(maxRoutes: Size, rates: seq<Rate>)
    requires Usable(maxRoutes) && AllNonzero(rates)
    ensures SoundTrie(Build(maxRoutes, rates))
  {
    hide Build;
    forall p ensures Nonzero(Build(maxRoutes, rates).RoutesAt(p)) {
      BuiltTriesAreSound(maxRoutes, rates, p);
    }
  }

  // ---------------------------------------------------------------------------------------------
  // Mixed routing over rates
  // ---------------------------------------------------------------------------------------------

  /** The tries hold these rates: of inter-area routes, of intra-area routes, and of the carriers' inter-area prefixes. */
  ghost predicate Holds(db: Database<Trie>, maxRoutes: Size, inter: seq<Rate>, intra: seq<Rate>, prefixes: seq<Rate>) {
    && Usable(maxRoutes) && AllNonzero(inter) && AllNonzero(intra) && AllNonzero(prefixes)
    && db.inter == Build(maxRoutes, inter) && db.intra == Build(maxRoutes, intra)
    && Usable(db.interAreas.maxRoutes) && db.interAreas == Build(db.interAreas.maxRoutes, prefixes)
    && db.areas.Valid()
  }

  /** Over rates: an inter-area result comes from a carrier that was given a prefix of the caller ID, and no carrier
      appears with both types. */
  lemma {:induction false} RatesKeepTypesApart(db: Database<Trie>, maxRoutes: Size, inter: seq<Rate>, intra: seq<Rate>,
                                               prefixes: seq<Rate>, callerId: string, dest: string, capacity: Size)
    requires Holds(db, maxRoutes, inter, intra, prefixes)
    requires Usable(capacity) && Usable(db.numCarriers) && Usable(Count(db.interAreas, callerId))
    ensures var out := Mixed(db, callerId, dest, Fresh(capacity)).Visible();
            && Sorted(out)
            && (forall r :: r in out && r.kind != 0 ==>
                  exists i :: 0 <= i < |prefixes| && Under(prefixes[i], callerId) && prefixes[i].route.value == r.value)
            && (forall r, s :: r in out && s in out && r.value == s.value ==> (r.kind == 0 <==> s.kind == 0))
  {
    hide Build, Mixed, Count, AllNonzero, Sorted;
    BuiltIsSound(maxRoutes, inter);
    BuiltIsSound(maxRoutes, intra);
    BuiltIsSound(db.interAreas.maxRoutes, prefixes);
    MixedKeepsTypesApart(db, callerId, dest, capacity);
    forall r | r in Mixed(db, callerId, dest, Fresh(capacity)).Visible() && r.kind != 0
      ensures exists i :: 0 <= i < |prefixes| && Under(prefixes[i], callerId) && prefixes[i].route.value == r.value
    {
      PrefixWasGiven(db, prefixes, callerId, r.value);
    }
  }

  lemma {:induction false} PrefixWasGiven(db: Database<Trie>, prefixes: seq<Rate>, callerId: string, carrier: Value)
    requires Valid(db) && Usable(db.interAreas.maxRoutes) && AllNonzero(prefixes)
    requires db.interAreas == Build(db.interAreas.maxRoutes, prefixes) && HasInterArea(db, callerId, carrier)
    ensures exists i :: 0 <= i < |prefixes| && Under(prefixes[i], callerId) && prefixes[i].route.value == carrier
  {
    hide Build, Add, AddAll;
    var n :| 0 <= n <= |callerId| && HasCarrier(db.interAreas.RoutesAt(callerId[..n]), carrier);
    var x :| x in db.interAreas.RoutesAt(callerId[..n]) && x.value == carrier;
    EntriesAre(db.interAreas.maxRoutes, prefixes, callerId[..n]);
    RoutesForIs(prefixes, callerId[..n]);
    HistoryKeepsOrder(db.interAreas.maxRoutes, RoutesFor(prefixes, callerId[..n]));
    var i :| 0 <= i < |prefixes| && prefixes[i] == Rate(callerId[..n], x);
    assert Under(prefixes[i], callerId);
  }

  /** The carriers' prefixes are loaded with routes of type 0, so PathIsHarmlessExactly applies to them. */
  lemma {:induction false} LoadedPathIsOneKind(maxRoutes: Size, prefixes: seq<Rate>, callerId: string)
    requires Usable(maxRoutes) && AllNonzero(prefixes) && AllDigits(callerId)
    requires forall i :: 0 <= i < |prefixes| ==> prefixes[i].route.kind == 0
    ensures OneKind(Collected(Build(maxRoutes, prefixes), callerId, 0))
  {
    hide Build, Collected, AllNonzero;
    forall r | r in Collected(Build(maxRoutes, prefixes), callerId, 0) ensures r.kind == 0 {
      CollectedWasAdded(maxRoutes, prefixes, callerId, r);
    }
  }
}
