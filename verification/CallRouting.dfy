/** Which rates a call is given, over all rates that were loaded: by the areas of both numbers, by the carriers' prefixes
    of the caller ID, or mixed. */
module CallRouting {
  import opened RouteArrays
  import opened RouteArrayLaws
  import opened RouteTries
  import opened TopRoutes
  import opened TrieLookups
  import opened LcrLookups
  import opened MixedRouting
  import opened MixedExactly
  import opened TrieTops

  // ---------------------------------------------------------------------------------------------
  // Areas
  // ---------------------------------------------------------------------------------------------

  /** Area rates are loaded at cost 0 and type 0. */
  predicate AreAreas(areas: seq<Rate>) {
    forall i :: 0 <= i < |areas| ==> areas[i].route.cost == 0 && areas[i].route.kind == 0 && areas[i].route.value != 0
  }

  /** The area of a number: among the prefixes of the number that have an area, the shortest counts, and for this prefix
      the area that was loaded first. */
  ghost predicate IsAreaOf(areas: seq<Rate>, number: string, area: int) {
    exists i :: 0 <= i < |areas| && FirstShortest(areas, number, i) && areas[i].route.value == area
  }

  ghost predicate FirstShortest(areas: seq<Rate>, number: string, i: int)
    requires 0 <= i < |areas|
  {
    && Under(areas[i], number)
    && forall j :: 0 <= j < |areas| && Under(areas[j], number) ==>
         |areas[i].prefix| < |areas[j].prefix| || (|areas[i].prefix| == |areas[j].prefix| && i <= j)
  }

  /** A one-slot array keeps the first of routes that cost the same. */
  lemma {:induction false} OneSlotKeepsFirst(rs: seq<Route>)
    requires rs != [] && forall r :: r in rs ==> r.cost == 0 && r.value != 0
    ensures AddAll(Fresh(1), rs) == Table([rs[0]], 1)
    decreases |rs|
  {
    hide Add, AddAll;
    var n := |rs| - 1;
    assert rs == rs[..n] + [rs[n]];
    if n == 0 {
      assert rs == [] + [rs[0]];
      AddAllStep(Fresh(1), [], rs[0]);
      assert AddAll(Fresh(1), []) == Fresh(1) by { NothingAdded(); }
      IntoEmptySlot(rs[0]);
    } else {
      OneSlotKeepsFirst(rs[..n]);
      AddAllStep(Fresh(1), rs[..n], rs[n]);
      assert rs[0] in rs && rs[n] in rs;
      BehindFullSlot(rs[0], rs[n]);
    }
  }

  lemma {:induction false} NothingAdded()
    ensures AddAll(Fresh(1), []) == Fresh(1)
  {
  }

  lemma {:induction false} IntoEmptySlot(r: Route)
    requires r.value != 0
    ensures Add(Fresh(1), r) == Table([r], 1)
  {
    assert Fresh(1) == Table([EMPTY], 0);
    assert [EMPTY][0 := r] == [r];
    assert Shift([EMPTY], 0, r) == Shift([r], 1, EMPTY) == [r];
  }

  lemma {:induction false} BehindFullSlot(a: Route, r: Route)
    requires a.value != 0 && r.value != 0 && a.cost == r.cost
    ensures Add(Table([a], 1), r) == Table([a], 1)
  {
    var t := Table([a], 1);
    assert FindSpot([a], r.cost) == FindSpot([a], r.cost, 1) == 1;
    assert Remove(t, 0) == Table([a], 0);
    assert Shift([a], 1, r) == [a];
  }

  /** The node for a prefix keeps the area that was loaded first. */
  lemma {:induction false} AreaNode(areas: seq<Rate>, p: string)
    requires AreAreas(areas) && AllDigits(p)
    ensures var rs := RoutesFor(areas, p); Build(1, areas).RoutesAt(p) == if rs == [] then [] else [rs[0]]
  {
    hide Add, AddAll;
    var rs := RoutesFor(areas, p);
    EntriesAre(1, areas, p);
    RoutesForIs(areas, p);
    if rs != [] {
      OneSlotKeepsFirst(rs);
    }
  }

  lemma {:induction false} NoRouteFor(rates: seq<Rate>, p: string)
    requires RoutesFor(rates, p) == []
    ensures forall j :: 0 <= j < |rates| ==> rates[j].prefix != p
  {
    RoutesForIs(rates, p);
  }

  lemma {:induction false} FirstRouteFor(rates: seq<Rate>, p: string) returns (i: int)
    requires RoutesFor(rates, p) != []
    ensures 0 <= i < |rates| && rates[i] == Rate(p, RoutesFor(rates, p)[0])
    ensures forall j :: 0 <= j < |rates| && rates[j].prefix == p ==> i <= j
    decreases |rates|
  {
    var n := |rates| - 1;
    if RoutesFor(rates[..n], p) != [] {
      i := FirstRouteFor(rates[..n], p);
      assert forall j :: 0 <= j < n ==> rates[..n][j] == rates[j];
    } else {
      NoRouteFor(rates[..n], p);
      i := n;
      assert forall j :: 0 <= j < n ==> rates[..n][j] == rates[j];
    }
  }

  /** The first collected route comes from the shortest prefix that has one. */
  lemma {:induction false} FirstCollected(t: Trie, key: string, k: nat) returns (n: nat)
    requires t.Valid() && k <= |key| && Collected(t, key, k) != []
    ensures k <= n <= |key| && t.RoutesAt(key[..n]) != [] && Collected(t, key, k)[0] == t.RoutesAt(key[..n])[0]
    ensures forall m :: k <= m < n ==> t.RoutesAt(key[..m]) == []
    decreases |key| - k
  {
    if t.RoutesAt(key[..k]) != [] {
      n := k;
    } else {
      n := FirstCollected(t, key, k + 1);
    }
  }

  lemma {:induction false} AreaFound(areas: seq<Rate>, number: string)
    requires AreAreas(areas) && AllDigits(number) && number != ""
    ensures var found := FindArea(Build(1, areas), number);
            && (found >= 0 ==> IsAreaOf(areas, number, found))
            && (found < 0 ==> found == -1 && forall i :: 0 <= i < |areas| ==> !Under(areas[i], number))
  {
    hide Build, Collected, Add, AddAll, AllDigits;
    var t := Build(1, areas);
    var all := Collected(t, number, 0);
    FindOffersCollected(t, number, 0, Fresh(1));
    forall r | r in all ensures r.cost == 0 && r.value != 0 {
      CollectedWasAdded(1, areas, number, r);
    }
    if all == [] {
      assert AddAll(Fresh(1), []) == Fresh(1) by { NothingAdded(); }
      forall i | 0 <= i < |areas| ensures !Under(areas[i], number) {
        if Under(areas[i], number) {
          AddedIsMatched(1, areas, number, i);
        }
      }
    } else {
      OneSlotKeepsFirst(all);
      var n := FirstCollected(t, number, 0);
      PrefixDigits(number, n);
      AreaNode(areas, number[..n]);
      var i := FirstRouteFor(areas, number[..n]);
      assert FirstShortest(areas, number, i) by { ShortestIsFirst(areas, number, n, i); }
    }
  }

  lemma {:induction false} PrefixDigits(s: string, n: nat)
    requires AllDigits(s) && n <= |s|
    ensures AllDigits(s[..n])
  {
  }

  lemma {:induction false} ShortestIsFirst(areas: seq<Rate>, number: string, n: nat, i: int)
    requires AreAreas(areas) && AllDigits(number) && n <= |number| && 0 <= i < |areas| && areas[i].prefix == number[..n]
    requires forall m :: 0 <= m < n ==> Build(1, areas).RoutesAt(number[..m]) == []
    requires forall j :: 0 <= j < |areas| && areas[j].prefix == number[..n] ==> i <= j
    ensures FirstShortest(areas, number, i)
  {
    hide Build, AllDigits;
    forall j | 0 <= j < |areas| && Under(areas[j], number)
      ensures n < |areas[j].prefix| || (n == |areas[j].prefix| && i <= j)
    {
      var m := |areas[j].prefix|;
      assert areas[j].prefix == number[..m];
      if m < n {
        PrefixDigits(number, m);
        AreaNode(areas, number[..m]);
        RoutesForIs(areas, number[..m]);
      }
    }
  }

  /** A number has one area at most. */
  lemma {:induction false} AreaIsUnique(areas: seq<Rate>, number: string, a: int, b: int)
    requires IsAreaOf(areas, number, a) && IsAreaOf(areas, number, b)
    ensures a == b
  {
    var i :| 0 <= i < |areas| && FirstShortest(areas, number, i) && areas[i].route.value == a;
    var j :| 0 <= j < |areas| && FirstShortest(areas, number, j) && areas[j].route.value == b;
    assert i <= j && j <= i;
  }

  /** A lookup finds the area of the number, -1 exactly if no prefix of it has one. */
  lemma {:induction false} AreaExactly(areas: seq<Rate>, number: string, area: int)
    requires AreAreas(areas) && AllDigits(number) && number != "" && area >= 0
    ensures FindArea(Build(1, areas), number) == area <==> IsAreaOf(areas, number, area)
    ensures FindArea(Build(1, areas), number) == -1 <==> forall i :: 0 <= i < |areas| ==> !Under(areas[i], number)
  {
    hide FindArea, Build, Under, AllDigits;
    AreaFound(areas, number);
    var found := FindArea(Build(1, areas), number);
    if IsAreaOf(areas, number, area) && found >= 0 {
      AreaIsUnique(areas, number, area, found);
    }
    if found >= 0 {
      var i :| 0 <= i < |areas| && FirstShortest(areas, number, i) && areas[i].route.value == found;
    }
  }

  // ---------------------------------------------------------------------------------------------
  // Inter-area calls
  // ---------------------------------------------------------------------------------------------

  /** What is left of a number once its first characters are replaced by a prefix. */
  function Rewritten(prefix: string, number: string, strip: int): string
    requires 0 <= strip < |number|
  {
    prefix + number[strip..]
  }

  /** Both numbers are long enough to be stripped, and have areas that differ. */
  ghost predicate AreasDiffer(db: Database<Trie>, areas: seq<Rate>, callerId: string, dest: string) {
    && 0 <= db.callerIdStrip < |callerId| && 0 <= db.destStrip < |dest|
    && exists a, b :: a != b && IsAreaOf(areas, Rewritten(db.callerIdPrefix, callerId, db.callerIdStrip), a)
                      && IsAreaOf(areas, Rewritten(db.destPrefix, dest, db.destStrip), b)
  }

  lemma {:induction false} InterAreaExactly(db: Database<Trie>, areas: seq<Rate>, callerId: string, dest: string)
    requires Valid(db) && db.areas == Build(1, areas) && AreAreas(areas)
    requires AllDigits(callerId) && AllDigits(dest) && AllDigits(db.callerIdPrefix) && AllDigits(db.destPrefix)
    ensures IsInterArea(db, callerId, dest) <==> AreasDiffer(db, areas, callerId, dest)
  {
    hide FindArea, Build, IsAreaOf;
    if 0 <= db.callerIdStrip < |callerId| && 0 <= db.destStrip < |dest| {
      var c := Rewritten(db.callerIdPrefix, callerId, db.callerIdStrip);
      var d := Rewritten(db.destPrefix, dest, db.destStrip);
      AreaFound(areas, c);
      AreaFound(areas, d);
      forall a | IsAreaOf(areas, c, a) ensures a == FindArea(db.areas, c) {
        AreaIsFound(areas, c, a);
      }
      forall b | IsAreaOf(areas, d, b) ensures b == FindArea(db.areas, d) {
        AreaIsFound(areas, d, b);
      }
      var src, dst := FindArea(db.areas, c), FindArea(db.areas, d);
      assert IsInterArea(db, callerId, dest) <==> src >= 0 && dst >= 0 && src != dst;
      if src >= 0 && dst >= 0 && src != dst {
        assert IsAreaOf(areas, c, src) && IsAreaOf(areas, d, dst);
      }
      if a, b :| a != b && IsAreaOf(areas, c, a) && IsAreaOf(areas, d, b) {
        IsNatural(areas, c, a);
        IsNatural(areas, d, b);
      }
    }
  }

  lemma {:induction false} AreaIsFound(areas: seq<Rate>, number: string, area: int)
    requires AreAreas(areas) && AllDigits(number) && number != "" && IsAreaOf(areas, number, area)
    ensures FindArea(Build(1, areas), number) == area
  {
    AreaExactly(areas, number, area) by { IsNatural(areas, number, area); }
  }

  lemma {:induction false} IsNatural(areas: seq<Rate>, number: string, area: int)
    requires IsAreaOf(areas, number, area)
    ensures area >= 0
  {
  }

  // ---------------------------------------------------------------------------------------------
  // Results over rates
  // ---------------------------------------------------------------------------------------------

  /** The results are what these rates give for the number: sorted, something exactly if a prefix of the number has a
      rate, nothing but such rates, and a cheapest one first. */
  ghost predicate Answers(out: seq<Route>, rates: seq<Rate>, dest: string) {
    && Sorted(out)
    && (out != [] <==> exists i :: 0 <= i < |rates| && Under(rates[i], dest))
    && (forall r :: r in out ==> exists i :: 0 <= i < |rates| && Under(rates[i], dest) && rates[i].route == r)
    && (out != [] ==> forall i :: 0 <= i < |rates| && Under(rates[i], dest) ==> out[0].cost <= rates[i].route.cost)
  }

  lemma {:induction false} LookupAnswers(maxRoutes: Size, rates: seq<Rate>, dest: string, capacity: Size)
    requires Usable(maxRoutes) && Usable(capacity) && AllNonzero(rates) && AllDigits(dest)
    ensures Answers(Find(Build(maxRoutes, rates), dest, Fresh(capacity)).0.Visible(), rates, dest)
  {
    hide Build, Find;
    LookupFindsCheapest(maxRoutes, rates, dest, capacity);
  }

  /** Somewhere on the path of the number a rate was added, exactly if something is counted. */
  lemma {:induction false} CountExactly(maxRoutes: Size, rates: seq<Rate>, number: string)
    requires Usable(maxRoutes) && AllNonzero(rates) && AllDigits(number)
    ensures Count(Build(maxRoutes, rates), number) == |Collected(Build(maxRoutes, rates), number, 0)|
    ensures Count(Build(maxRoutes, rates), number) == 0 <==> forall i :: 0 <= i < |rates| ==> !Under(rates[i], number)
  {
    hide Build, Collected, AllDigits;
    var all := Collected(Build(maxRoutes, rates), number, 0);
    CountIsCollected(Build(maxRoutes, rates), number, 0, 0);
    forall i | 0 <= i < |rates| && Under(rates[i], number) ensures all != [] {
      AddedIsMatched(maxRoutes, rates, number, i);
    }
    if all != [] {
      assert all[0] in all;
      CollectedWasAdded(maxRoutes, rates, number, all[0]);
    }
  }

  /** The call's own part of a mixed lookup: an intra-area route of a carrier that was not collected, or an inter-area
      route of one that was, among what the two tries give for the number. */
  predicate Qualifies(db: Database<Trie>, callerId: string, dest: string, r: Route)
    requires Valid(db)
  {
    var known := HasCarrier(InterCarriers(db, callerId).Visible(), r.value);
    || (r.kind == 0 && !known && r in Find(db.intra, dest, Fresh(ToSize(db.numCarriers))).0.Visible())
    || (r.kind != 0 && known && r in Find(db.inter, dest, Fresh(ToSize(db.numCarriers))).0.Visible())
  }

  lemma {:induction false} ReportedIsVisible(t: Trie, key: string, capacity: Size)
    requires t.Valid() && AllDigits(key)
    ensures var f := Find(t, key, Fresh(capacity)); Reported(f) == f.0.Visible()
  {
    hide AddAll, Collected;
    FindOffersCollected(t, key, 0, Fresh(capacity));
  }

  /** Mixed results: something exactly if a route qualifies, nothing else, sorted, and a cheapest one first. */
  lemma {:induction false} MixedAnswers(db: Database<Trie>, callerId: string, dest: string, capacity: Size)
    requires Valid(db) && Sound(db) && Usable(capacity) && Usable(db.numCarriers) && AllDigits(dest)
    ensures var out := Mixed(db, callerId, dest, Fresh(capacity)).Visible();
            && Sorted(out)
            && (out != [] <==> exists r :: Qualifies(db, callerId, dest, r))
            && (forall r :: r in out ==> Qualifies(db, callerId, dest, r))
            && (out != [] ==> forall r :: Qualifies(db, callerId, dest, r) ==> out[0].cost <= r.cost)
  {
    hide Add, AddAll, Find, Mixed, InterCarriers, HasCarrier, Reported;
    var offers := MixedOffers(db, callerId, dest);
    MixedIsOffers(db, callerId, dest, capacity);
    HistoryKeepsOrder(capacity, offers);
    ReportedIsVisible(db.intra, dest, ToSize(db.numCarriers));
    ReportedIsVisible(db.inter, dest, ToSize(db.numCarriers));
    assert forall r :: r in offers <==> Qualifies(db, callerId, dest, r);
    if offers != [] {
      assert offers[0] in offers;
      MinCostIs(offers);
    }
  }

  // ---------------------------------------------------------------------------------------------
  // The whole lookup
  // ---------------------------------------------------------------------------------------------

  /** What was loaded: rates of both types, the carriers' prefixes, and the areas. */
  ghost predicate Loaded(db: Database<Trie>, maxRoutes: Size, inter: seq<Rate>, intra: seq<Rate>, prefixes: seq<Rate>,
                         areas: seq<Rate>) {
    && Holds(db, maxRoutes, inter, intra, prefixes)
    && db.areas == Build(1, areas) && AreAreas(areas)
    && AllDigits(db.callerIdPrefix) && AllDigits(db.destPrefix) && Usable(db.numCarriers)
  }

  lemma {:induction false} LoadedIsSound(db: Database<Trie>, maxRoutes: Size, inter: seq<Rate>, intra: seq<Rate>,
                                         prefixes: seq<Rate>, areas: seq<Rate>)
    requires Loaded(db, maxRoutes, inter, intra, prefixes, areas)
    ensures Valid(db) && Sound(db)
  {
    hide Build;
    BuiltIsSound(maxRoutes, inter);
    BuiltIsSound(maxRoutes, intra);
    BuiltIsSound(db.interAreas.maxRoutes, prefixes);
  }

  /** The routes on the caller's path. */
  function PathLength(db: Database<Trie>, callerId: string): nat
    requires Valid(db)
  {
    |Collected(db.interAreas, callerId, 0)|
  }

  /** The main result. A call between areas that differ, or from a caller whose path has a route for each carrier, gets what
      the inter-area rates give for its number; any other call from a caller without a prefix gets what the intra-area
      rates give; and the remaining calls get mixed results. */
  lemma {:induction false} CallsAreRouted(db: Database<Trie>, maxRoutes: Size, inter: seq<Rate>, intra: seq<Rate>,
                                          prefixes: seq<Rate>, areas: seq<Rate>, callerId: string, dest: string,
                                          capacity: Size)
    requires Loaded(db, maxRoutes, inter, intra, prefixes, areas) && Valid(db) && Usable(capacity)
    requires AllDigits(callerId) && AllDigits(dest) && dest != ""
    ensures var out := FindRoutes(db, callerId, dest, Fresh(capacity)).Visible();
            var between := AreasDiffer(db, areas, callerId, dest);
            var length := PathLength(db, callerId);
            && (between || length >= db.numCarriers ==> Answers(out, inter, dest))
            && (!between && length < db.numCarriers && (forall i :: 0 <= i < |prefixes| ==> !Under(prefixes[i], callerId))
                ==> Answers(out, intra, dest))
            && (!between && length < db.numCarriers && (exists i :: 0 <= i < |prefixes| && Under(prefixes[i], callerId)) ==>
                  && Sorted(out)
                  && (out != [] <==> exists r :: Qualifies(db, callerId, dest, r))
                  && (forall r :: r in out ==> Qualifies(db, callerId, dest, r))
                  && (out != [] ==> forall r :: Qualifies(db, callerId, dest, r) ==> out[0].cost <= r.cost))
  {
    hide Build, Find, Mixed, Answers, AreasDiffer, Collected, Qualifies, Sorted, IsInterArea, Count, Under;
    LoadedIsSound(db, maxRoutes, inter, intra, prefixes, areas);
    InterAreaExactly(db, areas, callerId, dest);
    CountExactly(db.interAreas.maxRoutes, prefixes, callerId);
    LookupAnswers(maxRoutes, inter, dest, capacity);
    LookupAnswers(maxRoutes, intra, dest, capacity);
    MixedAnswers(db, callerId, dest, capacity);
  }

  /** A leading plus on either number changes nothing, and without a number there are no routes. */
  lemma {:induction false} PlusIsIgnored(db: Database<Trie>, callerId: string, dest: string, results: Table)
    requires Valid(db) && results.Valid()
    ensures callerId == "" || callerId[0] != '+' ==>
              FindRoutes(db, "+" + callerId, dest, results) == FindRoutes(db, callerId, dest, results)
    ensures dest != "" && dest[0] != '+' ==>
              FindRoutes(db, callerId, "+" + dest, results) == FindRoutes(db, callerId, dest, results)
    ensures FindRoutes(db, callerId, "", results) == results
  {
    hide IsInterArea, Find, Mixed, Count;
    assert ("+" + callerId)[1..] == callerId && ("+" + dest)[1..] == dest;
  }
}
