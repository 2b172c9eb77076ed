/** What mixed routing guarantees about the routes it returns. */
module MixedRouting {
  import opened RouteArrays
  import opened RouteArrayLaws
  import opened RouteTries
  import opened TopRoutes
  import opened TrieLookups
  import opened LcrLookups

  /** No trie of the database shows a route with value 0; true of any trie built from nonzero rates. */
  ghost predicate Sound(db: Database<Trie>)
    requires Valid(db)
  {
    && (forall p :: Nonzero(db.inter.RoutesAt(p)))
    && (forall p :: Nonzero(db.intra.RoutesAt(p)))
    && (forall p :: Nonzero(db.interAreas.RoutesAt(p)))
  }

  /** The carrier has an inter-area prefix of the caller ID. */
  ghost predicate HasInterArea(db: Database<Trie>, callerId: string, carrier: Value)
    requires Valid(db)
  {
    exists n :: 0 <= n <= |callerId| && HasCarrier(db.interAreas.RoutesAt(callerId[..n]), carrier)
  }

  lemma {:induction false} BuiltTriesAreSound(maxRoutes: Size, rates: seq<Rate>, p: string)
    requires Usable(maxRoutes) && AllNonzero(rates)
    ensures Nonzero(Build(maxRoutes, rates).RoutesAt(p))
  {
    hide Add, AddAll;
    EntriesAre(maxRoutes, rates, p);
    RoutesForIs(rates, p);
    HistoryKeepsOrder(maxRoutes, RoutesFor(rates, p));
  }

  lemma {:induction false} FoundIsOffered(t: Trie, key: string, capacity: Size, r: Route)
    requires t.Valid() && Usable(capacity) && forall p :: Nonzero(t.RoutesAt(p))
    requires r in Find(t, key, Fresh(capacity)).0.Visible()
    ensures r in Offered(t, key, 0) && r.value != 0
  {
    hide Add, AddAll;
    FindOffers(t, key, 0, Fresh(capacity));
    forall x | x in Offered(t, key, 0)
      ensures x.value != 0
    {
      InOffered(t, key, 0, x);
    }
    HistoryKeepsOrder(capacity, Offered(t, key, 0));
  }

  /** The routes that mixed routing offers to its result array. */
  function MixedOffers(db: Database<Trie>, callerId: string, dest: string): seq<Route>
    requires Valid(db)
  {
    var carriers := InterCarriers(db, callerId).Visible();
    Chosen(Reported(Find(db.intra, dest, Fresh(ToSize(db.numCarriers)))), carriers, false) +
    Chosen(Reported(Find(db.inter, dest, Fresh(ToSize(db.numCarriers)))), carriers, true)
  }

  lemma {:induction false} MixedIsOffers(db: Database<Trie>, callerId: string, dest: string, capacity: Size)
    requires Valid(db) && Sound(db) && Usable(capacity) && Usable(db.numCarriers)
    ensures Mixed(db, callerId, dest, Fresh(capacity)) == AddAll(Fresh(capacity), MixedOffers(db, callerId, dest))
    ensures Nonzero(MixedOffers(db, callerId, dest))
  {
    hide Add, AddAll, Find, Chosen;
    var carriers := InterCarriers(db, callerId).Visible();
    var intra := Reported(Find(db.intra, dest, Fresh(ToSize(db.numCarriers))));
    var inter := Reported(Find(db.inter, dest, Fresh(ToSize(db.numCarriers))));
    AddAllConcat(Fresh(capacity), Chosen(intra, carriers, false), Chosen(inter, carriers, true));
    forall r | r in intra
      ensures r.value != 0
    {
      FoundIsOffered(db.intra, dest, db.numCarriers, r);
    }
    forall r | r in inter
      ensures r.value != 0
    {
      FoundIsOffered(db.inter, dest, db.numCarriers, r);
    }
  }

  lemma {:induction false} OffersAreTyped(db: Database<Trie>, callerId: string, dest: string, r: Route)
    requires Valid(db) && r in MixedOffers(db, callerId, dest)
    ensures r.kind != 0 <==> HasCarrier(InterCarriers(db, callerId).Visible(), r.value)
  {
    hide Find, Reported, InterCarriers;
  }

  lemma {:induction false} KnownCarriersHaveInterArea(db: Database<Trie>, callerId: string, carrier: Value)
    requires Valid(db) && Sound(db) && Usable(Count(db.interAreas, callerId))
    requires HasCarrier(InterCarriers(db, callerId).Visible(), carrier)
    ensures HasInterArea(db, callerId, carrier)
  {
    hide Find;
    var x :| x in InterCarriers(db, callerId).Visible() && x.value == carrier;
    FoundIsOffered(db.interAreas, callerId, Count(db.interAreas, callerId), x);
    InOffered(db.interAreas, callerId, 0, x);
  }

  /** Starting from an empty array: the results are in order of cost, an inter-area result's carrier always has an
      inter-area prefix of the caller ID, and no carrier appears with both types. */
  lemma {:induction false} MixedKeepsTypesApart(db: Database<Trie>, callerId: string, dest: string, capacity: Size)
    requires Valid(db) && Sound(db) && Usable(capacity) && Usable(db.numCarriers)
    requires Usable(Count(db.interAreas, callerId))
    ensures var out := Mixed(db, callerId, dest, Fresh(capacity)).Visible();
            && Sorted(out)
            && (forall r :: r in out && r.kind != 0 ==> HasInterArea(db, callerId, r.value))
            && (forall r, s :: r in out && s in out && r.value == s.value ==> (r.kind == 0 <==> s.kind == 0))
  {
    hide Add, AddAll, MixedOffers, Mixed, HasInterArea, InterCarriers;
    MixedIsOffers(db, callerId, dest, capacity);
    HistoryKeepsOrder(capacity, MixedOffers(db, callerId, dest));
    forall r | r in Mixed(db, callerId, dest, Fresh(capacity)).Visible()
      ensures r.kind != 0 <==> HasCarrier(InterCarriers(db, callerId).Visible(), r.value)
      ensures r.kind != 0 ==> HasInterArea(db, callerId, r.value)
    {
      OffersAreTyped(db, callerId, dest, r);
      if r.kind != 0 {
        KnownCarriersHaveInterArea(db, callerId, r.value);
      }
    }
  }

  // ---------------------------------------------------------------------------------------------
  // Carriers that must not be missed
  // ---------------------------------------------------------------------------------------------

  function Keys(rs: seq<Route>): set<(Value, Kind)> {
    set r | r in rs :: (r.value, r.kind)
  }

  lemma {:induction false} KeysAppend(rs: seq<Route>, r: Route)
    ensures Keys(rs + [r]) == Keys(rs) + {(r.value, r.kind)}
  {
    assert forall x :: x in rs + [r] <==> x in rs || x == r;
  }

  ghost predicate DistinctKeys(rs: seq<Route>) {
    rs == [] ||
    var rest, last := rs[..|rs| - 1], rs[|rs| - 1];
    DistinctKeys(rest) && (last.value, last.kind) !in Keys(rest)
  }

  lemma {:induction false} KeyCount(rs: seq<Route>)
    ensures |Keys(rs)| <= |rs|
    ensures DistinctKeys(rs) ==> |Keys(rs)| == |rs|
    decreases |rs|
  {
    hide Keys;
    if rs == [] {
      KeysNone();
    } else {
      var rest, last := rs[..|rs| - 1], rs[|rs| - 1];
      KeyCount(rest);
      assert rs == rest + [last];
      KeysAppend(rest, last);
    }
  }

  lemma {:induction false} KeysNone()
    ensures Keys([]) == {}
  {
  }

  lemma {:induction false} BestHasDistinctKeys(rs: seq<Route>, capacity: nat, best: seq<Route>, n: nat)
    requires IsBest(rs, capacity, best, false) && n <= |best|
    ensures DistinctKeys(best[..n])
  {
    if n > 0 {
      BestHasDistinctKeys(rs, capacity, best, n - 1);
      assert best[..n][..n - 1] == best[..n - 1];
      assert forall i :: 0 <= i < n - 1 ==> !SameKey(best[i], best[n - 1]);
    }
  }

  predicate HasKey(rs: seq<Route>, r: Route) {
    exists x :: x in rs && SameKey(x, r)
  }

  /** A harmless history no longer than the capacity keeps every key it was offered. */
  lemma {:induction false} RoomForAll(capacity: Size, rs: seq<Route>, r: Route)
    requires Usable(capacity) && Nonzero(rs) && |rs| <= capacity && HarmlessHistory(capacity, rs) && r in rs
    ensures HasKey(AddAll(Fresh(capacity), rs).Visible(), r)
    ensures HasCarrier(AddAll(Fresh(capacity), rs).Visible(), r.value)
  {
    hide Add, AddAll;
    var best := AddAll(Fresh(capacity), rs).Visible();
    HarmlessHistoryIsBest(capacity, rs);
    var c := ChampionOf(rs, r);
    if c !in best {
      BestHasDistinctKeys(rs, capacity, best, |best|);
      assert best[..|best|] == best;
      KeyCount(best);
      KeyCount(rs);
      assert Keys(best) <= Keys(rs) && |Keys(best)| >= |Keys(rs)|;
      SubsetOfSameSize(Keys(best), Keys(rs));
      assert (r.value, r.kind) in Keys(rs);
      assert (r.value, r.kind) in Keys(best);
    }
  }

  lemma {:induction false} SubsetOfSameSize<T>(a: set<T>, b: set<T>)
    requires a <= b && |a| >= |b|
    ensures a == b
  {
    assert b == a + (b - a);
    assert |b| == |a| + |b - a|;
  }

  ghost predicate DistinctCarriers(rs: seq<Route>) {
    forall i, j :: 0 <= i < j < |rs| ==> rs[i].value != rs[j].value
  }

  lemma {:induction false} DistinctIsHarmless(capacity: Size, rs: seq<Route>)
    requires Usable(capacity) && Nonzero(rs) && DistinctCarriers(rs)
    ensures NoReplacement(capacity, rs)
    decreases |rs|
  {
    hide Add;
    if rs != [] {
      var before, last := rs[..|rs| - 1], rs[|rs| - 1];
      NonzeroParts(rs);
      assert forall i, j :: 0 <= i < j < |before| ==> before[i].value != before[j].value;
      DistinctIsHarmless(capacity, before);
      HistoryKeepsOrder(capacity, before);
      var t := AddAll(Fresh(capacity), before);
      forall k | 0 <= k < t.size
        ensures !SameKey(t.slots[k], last)
      {
        assert t.Visible()[k] in before;
        var i :| 0 <= i < |before| && before[i] == t.slots[k];
        assert rs[i].value != rs[|rs| - 1].value;
      }
    }
  }

  /** The harmless case: every carrier along the caller's path is known to mixed routing. */
  lemma {:induction false} CarriersAreKnown(db: Database<Trie>, callerId: string, r: Route)
    requires Valid(db) && Sound(db) && AllDigits(callerId) && Usable(Count(db.interAreas, callerId))
    requires HarmlessHistory(Count(db.interAreas, callerId), Collected(db.interAreas, callerId, 0))
    requires r in Collected(db.interAreas, callerId, 0)
    ensures HasCarrier(InterCarriers(db, callerId).Visible(), r.value)
  {
    hide Add, AddAll, Collected;
    var count := Count(db.interAreas, callerId);
    CountIsCollected(db.interAreas, callerId, 0, 0);
    FindOffersCollected(db.interAreas, callerId, 0, Fresh(count));
    AllNonzeroCollected(db.interAreas, callerId);
    RoomForAll(count, Collected(db.interAreas, callerId, 0), r);
  }

  /** When collecting the carriers of the caller's path is harmless, no carrier of an intra-area result has an
      inter-area prefix of the caller ID. */
  lemma {:induction false} MixedKeepsIntraApart(db: Database<Trie>, callerId: string, dest: string, capacity: Size)
    requires Valid(db) && Sound(db) && Usable(capacity) && Usable(db.numCarriers) && AllDigits(callerId)
    requires Usable(Count(db.interAreas, callerId))
    requires HarmlessHistory(Count(db.interAreas, callerId), Collected(db.interAreas, callerId, 0))
    ensures forall r :: r in Mixed(db, callerId, dest, Fresh(capacity)).Visible() && r.kind == 0 ==>
              !HasInterArea(db, callerId, r.value)
  {
    hide Add, AddAll, Find, Chosen, Mixed, InterCarriers;
    MixedIsOffers(db, callerId, dest, capacity);
    HistoryKeepsOrder(capacity, MixedOffers(db, callerId, dest));
    var carriers := InterCarriers(db, callerId).Visible();
    forall r | r in Mixed(db, callerId, dest, Fresh(capacity)).Visible() && r.kind == 0
      ensures !HasInterArea(db, callerId, r.value)
    {
      assert !HasCarrier(carriers, r.value);
      forall n, x | 0 <= n <= |callerId| && x in db.interAreas.RoutesAt(callerId[..n])
        ensures x.value != r.value
      {
        InCollected(db.interAreas, callerId, 0, x);
        CarriersAreKnown(db, callerId, x);
      }
    }
  }

  /** In particular when no carrier repeats along the caller's path. */
  lemma {:induction false} DistinctCarriersKeepIntraApart(db: Database<Trie>, callerId: string, dest: string,
                                                          capacity: Size)
    requires Valid(db) && Sound(db) && Usable(capacity) && Usable(db.numCarriers) && AllDigits(callerId)
    requires Usable(Count(db.interAreas, callerId)) && DistinctCarriers(Collected(db.interAreas, callerId, 0))
    ensures forall r :: r in Mixed(db, callerId, dest, Fresh(capacity)).Visible() && r.kind == 0 ==>
              !HasInterArea(db, callerId, r.value)
  {
    var count, all := Count(db.interAreas, callerId), Collected(db.interAreas, callerId, 0);
    hide Add, AddAll, Collected, Mixed, Count;
    AllNonzeroCollected(db.interAreas, callerId);
    DistinctIsHarmless(count, all);
    NoReplacementLaws(count, all);
    MixedKeepsIntraApart(db, callerId, dest, capacity);
  }

  lemma {:induction false} AllNonzeroCollected(t: Trie, key: string)
    requires t.Valid() && forall p :: Nonzero(t.RoutesAt(p))
    ensures Nonzero(Collected(t, key, 0))
  {
    forall r | r in Collected(t, key, 0)
      ensures r.value != 0
    {
      InCollected(t, key, 0, r);
    }
  }

  /** With a repeated carrier the carrier can be lost, and its intra-area routes are then returned. */
  lemma {:induction false} RepeatedCarrierIsLost()
    ensures AddAll(Fresh(3), [Route(0, 1, 0), Route(0, 2, 0), Route(0, 1, 0)]).Visible()
            == [Route(0, 2, 0), Route(0, 2, 0)]
  {
    hide AddAll, Add, Fresh;
    var a, b := Route(0, 1, 0), Route(0, 2, 0);
    FreshThree();
    FirstAdd(a);
    SecondAdd(a, b);
    RepeatedAdd(a, b);
    AddThree(Fresh(3), a, b, a);
    assert Table([b, b, a], 2).Visible() == [b, b];
  }

  lemma {:induction false} SecondAdd(a: Route, b: Route)
    requires !SameKey(a, b) && a.cost <= b.cost && a.value != 0 && b.value != 0
    ensures Add(Table([a, EMPTY, EMPTY], 1), b) == Table([a, b, EMPTY], 2)
  {
    hide AddAll, Remove;
    var s := [a, EMPTY, EMPTY];
    assert FindSpot(s, b.cost) == FindSpot(s, b.cost, 1) == 1;
    assert Shift(s, 1, b) == [a, b, EMPTY];
  }

  lemma {:induction false} RepeatedAdd(a: Route, b: Route)
    requires !SameKey(a, b) && a.cost == b.cost && a.value != 0 && b.value != 0
    ensures Add(Table([a, b, EMPTY], 2), a) == Table([b, b, a], 2)
  {
    hide AddAll;
    var t := Table([a, b, EMPTY], 2);
    assert FindKey(t, a) == 0 && Vacate(t, a) == Remove(t, 0) == Table([b, b, EMPTY], 1);
    var s := [b, b, EMPTY];
    assert FindSpot(s, a.cost) == FindSpot(s, a.cost, 1) == FindSpot(s, a.cost, 2) == 2;
    assert Shift(s, 2, a) == [b, b, a];
  }
}
