/** Exactly when mixed routing keeps the intra-area routes of inter-area carriers out of its results. */
module MixedExactly {
  import opened RouteArrays
  import opened RouteArrayLaws
  import opened RouteTries
  import opened TopRoutes
  import opened TrieLookups
  import opened LcrLookups
  import opened MixedRouting
  import opened TopRoutesExactly

  /** A first route that nothing can beat on cost, and whose key nobody else has, stays first. */
  lemma {:induction false} HeadStays(t: Table, r: Route, x: Route)
    requires Packed(t) && Usable(|t.slots|) && t.size > 0 && t.slots[0] == r && r.cost == 0
    requires r.value != 0 && x.value != 0 && !SameKey(r, x)
    ensures Add(t, x).slots[0] == r
  {
    hide FindSpot, FindKey;
    if !HasCheaper(t, x) {
      AddSplices(t, x);
      var k := FindKey(t, x);
      var v := Vacate(t, x);
      assert v.slots[0] == r by {
        if k < t.size {
          RemoveSlot(t, k, 0);
        }
      }
      assert FindSpot(v.slots, x.cost) > 0;
    }
  }

  lemma {:induction false} HeadStaysThroughout(capacity: Size, r: Route, rest: seq<Route>)
    requires Usable(capacity) && r.cost == 0 && Nonzero([r] + rest)
    requires forall x :: x in rest ==> !SameKey(r, x)
    ensures var t := AddAll(Fresh(capacity), [r] + rest); t.size > 0 && t.slots[0] == r && Packed(t)
    decreases |rest|
  {
    hide Add, AddAll, Packed;
    HistoryKeepsOrder(capacity, [r] + rest);
    if rest == [] {
      assert [r] + rest == [r];
      OneRoute(capacity, r);
    } else {
      var n := |rest| - 1;
      assert [r] + rest == ([r] + rest[..n]) + [rest[n]];
      HeadStaysThroughout(capacity, r, rest[..n]);
      AddAllStep(Fresh(capacity), [r] + rest[..n], rest[n]);
      HeadStays(AddAll(Fresh(capacity), [r] + rest[..n]), r, rest[n]);
    }
  }

  lemma {:induction false} OneRoute(capacity: Size, r: Route)
    requires Usable(capacity) && r.value != 0
    ensures AddAll(Fresh(capacity), [r]).Visible() == [r]
  {
    hide Add;
    FreshIsPacked(capacity);
    AddSplices(Fresh(capacity), r);
    AddAllStep(Fresh(capacity), [], r);
    HistoryKeepsOrder(capacity, [r]);
    var t := AddAll(Fresh(capacity), [r]);
    assert t.size == 1;
    assert t.Visible()[0] in t.Visible();
  }

  /** A trie with a single route, for every number. */
  function Everywhere(r: Route): (t: Trie)
    ensures t.Valid()
  {
    Build(1, [Rate("", r)])
  }

  lemma {:induction false} EverywhereIs(r: Route, p: string)
    requires r.value != 0
    ensures Everywhere(r).RoutesAt(p) == if p == "" then [r] else []
  {
    hide AddAll, Add;
    EntriesAre(1, [Rate("", r)], p);
    assert [Rate("", r)][..0] == [];
    assert RoutesFor([Rate("", r)], p) == if p == "" then [r] else [];
    OneRoute(1, r);
  }

  lemma {:induction false} NothingElse(r: Route, key: string, k: nat)
    requires r.value != 0 && 0 < k <= |key|
    ensures Collected(Everywhere(r), key, k) == []
    decreases |key| - k
  {
    hide Build;
    EverywhereIs(r, key[..k]);
    if k < |key| {
      NothingElse(r, key, k + 1);
    }
  }

  lemma {:induction false} FindEverywhere(r: Route, key: string, capacity: Size)
    requires r.value != 0 && AllDigits(key) && Usable(capacity)
    ensures Reported(Find(Everywhere(r), key, Fresh(capacity))) == [r]
  {
    hide AddAll, Add, Everywhere;
    EverywhereIs(r, key[..0]);
    if key != "" {
      NothingElse(r, key, 1);
    }
    assert Collected(Everywhere(r), key, 0) == [r];
    FindOffersCollected(Everywhere(r), key, 0, Fresh(capacity));
    OneRoute(capacity, r);
  }

  /** No intra-area result is from a carrier with an inter-area prefix of the caller ID. */
  ghost predicate IntraApart(db: Database<Trie>, callerId: string, dest: string, capacity: Size)
    requires Valid(db)
  {
    forall r :: r in Mixed(db, callerId, dest, Fresh(capacity)).Visible() && r.kind == 0 ==>
      !HasInterArea(db, callerId, r.value)
  }

  ghost predicate SoundTrie(t: Trie) {
    t.Valid() && forall p :: Nonzero(t.RoutesAt(p))
  }

  /** Mixed routing collected every carrier that has an inter-area prefix of the caller ID. */
  ghost predicate AllCollected(db: Database<Trie>, callerId: string)
    requires Valid(db)
  {
    forall carrier :: HasInterArea(db, callerId, carrier) ==>
      HasCarrier(InterCarriers(db, callerId).Visible(), carrier)
  }

  lemma {:induction false} CollectedKeepsApart(db: Database<Trie>, callerId: string, dest: string, capacity: Size)
    requires Valid(db) && Sound(db) && Usable(capacity) && Usable(db.numCarriers) && AllCollected(db, callerId)
    ensures IntraApart(db, callerId, dest, capacity)
  {
    hide Add, AddAll, Mixed, MixedOffers, InterCarriers, HasInterArea;
    MixedIsOffers(db, callerId, dest, capacity);
    HistoryKeepsOrder(capacity, MixedOffers(db, callerId, dest));
    forall r | r in Mixed(db, callerId, dest, Fresh(capacity)).Visible() && r.kind == 0
      ensures !HasInterArea(db, callerId, r.value)
    {
      OffersAreTyped(db, callerId, dest, r);
    }
  }

  lemma {:induction false} EverywhereIsSound(db: Database<Trie>, r: Route)
    requires Valid(db) && Sound(db) && r.value != 0
    ensures Valid(db.(intra := Everywhere(r))) && Sound(db.(intra := Everywhere(r)))
  {
    hide Everywhere;
    forall p ensures Nonzero(Everywhere(r).RoutesAt(p)) {
      EverywhereIs(r, p);
    }
  }

  /** With a single intra-area route, of a carrier that was not collected, that route is offered first. */
  lemma {:induction false} MissedIsOffered(db: Database<Trie>, callerId: string, dest: string, r: Route)
    returns (inter: seq<Route>)
    requires Valid(db) && Usable(db.numCarriers) && AllDigits(dest) && r.value != 0 && r.kind == 0
    requires !HasCarrier(InterCarriers(db, callerId).Visible(), r.value)
    ensures MixedOffers(db.(intra := Everywhere(r)), callerId, dest) == [r] + inter
    ensures forall x :: x in inter ==> x.kind != 0
  {
    hide AddAll, Find, Everywhere, Reported;
    FindEverywhere(r, dest, db.numCarriers);
    var carriers := InterCarriers(db, callerId).Visible();
    ChosenAlone(r, carriers);
    inter := Chosen(Reported(Find(db.inter, dest, Fresh(ToSize(db.numCarriers)))), carriers, true);
  }

  /** A carrier that was missed: its intra-area route comes out first. */
  lemma {:induction false} MissedCarrierComesOut(db: Database<Trie>, callerId: string, dest: string, capacity: Size,
                                                 carrier: Value)
    requires Valid(db) && Sound(db) && Usable(capacity) && Usable(db.numCarriers) && AllDigits(dest)
    requires carrier != 0 && HasInterArea(db, callerId, carrier)
    requires !HasCarrier(InterCarriers(db, callerId).Visible(), carrier)
    ensures var db' := db.(intra := Everywhere(Route(0, carrier, 0)));
            Valid(db') && Sound(db') && !IntraApart(db', callerId, dest, capacity)
  {
    hide AddAll, Everywhere, MixedOffers, Mixed, InterCarriers, HasInterArea, Sound;
    var r := Route(0, carrier, 0);
    var db' := db.(intra := Everywhere(r));
    EverywhereIsSound(db, r);
    var inter := MissedIsOffered(db, callerId, dest, r);
    MixedIsOffers(db', callerId, dest, capacity);
    HeadStaysThroughout(capacity, r, inter);
    var t := Mixed(db', callerId, dest, Fresh(capacity));
    assert t.Visible()[0] == r && r in t.Visible();
    SameInterArea(db, db', callerId, carrier);
  }

  lemma {:induction false} ChosenAlone(r: Route, carriers: seq<Route>)
    requires r.kind == 0 && !HasCarrier(carriers, r.value)
    ensures Chosen([r], carriers, false) == [r]
  {
    assert [r][..0] == [];
  }

  lemma {:induction false} SameInterArea(db: Database<Trie>, db': Database<Trie>, callerId: string, carrier: Value)
    requires Valid(db) && Valid(db') && db'.interAreas == db.interAreas
    ensures HasInterArea(db', callerId, carrier) <==> HasInterArea(db, callerId, carrier)
  {
  }

  /** Whatever the intra-area routes: the results are right exactly when every carrier with an inter-area prefix of the
      caller ID has been collected. MixedKeepsIntraApart gives the usual reason for it. */
  lemma {:induction false} IntraApartExactly(db: Database<Trie>, callerId: string, dest: string, capacity: Size)
    requires Valid(db) && Sound(db) && Usable(capacity) && Usable(db.numCarriers) && AllDigits(dest)
    ensures (forall t: Trie :: SoundTrie(t) ==> IntraApart(db.(intra := t), callerId, dest, capacity))
       <==> AllCollected(db, callerId)
  {
    hide IntraApart, HasInterArea, InterCarriers;
    if AllCollected(db, callerId) {
      forall t: Trie | SoundTrie(t) ensures IntraApart(db.(intra := t), callerId, dest, capacity) {
        var db' := db.(intra := t);
        assert AllCollected(db', callerId) by { SameCollected(db, db', callerId); }
        CollectedKeepsApart(db', callerId, dest, capacity);
      }
    } else {
      var carrier :| HasInterArea(db, callerId, carrier) && !HasCarrier(InterCarriers(db, callerId).Visible(), carrier);
      assert carrier != 0 by { NoNullCarrier(db, callerId); }
      MissedCarrierComesOut(db, callerId, dest, capacity, carrier);
      assert SoundTrie(Everywhere(Route(0, carrier, 0)));
    }
  }

  lemma {:induction false} SameCollected(db: Database<Trie>, db': Database<Trie>, callerId: string)
    requires Valid(db) && Valid(db') && db'.interAreas == db.interAreas && AllCollected(db, callerId)
    ensures AllCollected(db', callerId)
  {
    hide HasInterArea;
    assert InterCarriers(db', callerId) == InterCarriers(db, callerId);
    forall carrier | HasInterArea(db', callerId, carrier)
      ensures HasCarrier(InterCarriers(db', callerId).Visible(), carrier)
    {
      SameInterArea(db, db', callerId, carrier);
    }
  }

  lemma {:induction false} NoNullCarrier(db: Database<Trie>, callerId: string)
    requires Valid(db) && Sound(db)
    ensures !HasInterArea(db, callerId, 0)
  {
    forall n | 0 <= n <= |callerId| ensures !HasCarrier(db.interAreas.RoutesAt(callerId[..n]), 0) {
      assert Nonzero(db.interAreas.RoutesAt(callerId[..n]));
    }
  }

  // ---------------------------------------------------------------------------------------------
  // The carriers on the caller's path
  // ---------------------------------------------------------------------------------------------

  /** After every route of the path, all keys so far are visible. */
  ghost predicate KeysThroughout(capacity: Size, rs: seq<Route>) {
    && (forall r :: r in rs ==> HasKey(AddAll(Fresh(capacity), rs).Visible(), r))
    && (rs == [] || KeysThroughout(capacity, rs[..|rs| - 1]))
  }

  lemma {:induction false} KeysThroughoutExactly(capacity: Size, rs: seq<Route>)
    requires Usable(capacity) && Nonzero(rs) && |rs| <= capacity
    ensures KeysThroughout(capacity, rs) <==> HarmlessHistory(capacity, rs)
    decreases |rs|
  {
    hide Add, AddAll, Harmless, HasKey, StaleKeysVisible, IsBest;
    if HarmlessHistory(capacity, rs) {
      forall r | r in rs ensures HasKey(AddAll(Fresh(capacity), rs).Visible(), r) {
        RoomForAll(capacity, rs, r);
      }
    }
    if rs != [] {
      var n := |rs| - 1;
      NonzeroParts(rs);
      KeysThroughoutExactly(capacity, rs[..n]);
      if HarmlessHistory(capacity, rs[..n]) && !HarmlessHistory(capacity, rs) {
        HarmfulLosesLast(capacity, rs);
        assert rs[n] in rs;
      }
    }
  }

  lemma {:induction false} HarmfulLosesLast(capacity: Size, rs: seq<Route>)
    requires Usable(capacity) && Nonzero(rs) && rs != []
    requires HarmlessHistory(capacity, rs[..|rs| - 1]) && !HarmlessHistory(capacity, rs)
    ensures !HasKey(AddAll(Fresh(capacity), rs).Visible(), rs[|rs| - 1])
  {
    hide Add, Harmless, StaleKeysVisible, IsBest, Packed, KeysOnce;
    var n, t := |rs| - 1, AddAll(Fresh(capacity), rs[..|rs| - 1]);
    NonzeroParts(rs);
    HarmlessHistoryKeepsStaleKeys(capacity, rs[..n]);
    HistoryKeepsOrder(capacity, rs[..n]);
    HarmlessHistoryIsBest(capacity, rs[..n]);
    BestHasKeysOnce(rs[..n], capacity, t.Visible());
    AddAllStep(Fresh(capacity), rs[..n], rs[n]);
    HarmfulLosesKey(t, rs[n]);
  }

  /** The lists of inter-area prefixes are loaded with a single type of routes. */
  ghost predicate OneKind(rs: seq<Route>) {
    forall r, s :: r in rs && s in rs ==> r.kind == s.kind
  }

  /** After every route of the path, all carriers so far are visible. */
  ghost predicate CarriersThroughout(capacity: Size, rs: seq<Route>) {
    && (forall r :: r in rs ==> HasCarrier(AddAll(Fresh(capacity), rs).Visible(), r.value))
    && (rs == [] || CarriersThroughout(capacity, rs[..|rs| - 1]))
  }

  lemma {:induction false} CarriersAreKeys(capacity: Size, rs: seq<Route>)
    requires Usable(capacity) && Nonzero(rs) && OneKind(rs)
    ensures CarriersThroughout(capacity, rs) <==> KeysThroughout(capacity, rs)
    decreases |rs|
  {
    hide Add, AddAll, IsBest, HasCarrier, HasKey, Packed, Sorted, OneKind;
    HistoryKeepsOrder(capacity, rs);
    VisibleCarriers(rs, AddAll(Fresh(capacity), rs).Visible());
    if rs != [] {
      NonzeroParts(rs);
      FewerAreOneKind(rs);
      CarriersAreKeys(capacity, rs[..|rs| - 1]);
    }
  }

  lemma {:induction false} VisibleCarriers(rs: seq<Route>, visible: seq<Route>)
    requires OneKind(rs) && forall v :: v in visible ==> v in rs
    ensures forall r :: r in rs ==> (HasCarrier(visible, r.value) <==> HasKey(visible, r))
  {
  }

  lemma {:induction false} FewerAreOneKind(rs: seq<Route>)
    requires OneKind(rs) && rs != []
    ensures OneKind(rs[..|rs| - 1])
  {
  }

  /** On the caller's path: no carrier is ever missing while the carriers are collected exactly if the path is a harmless
      history; and then all of them have been collected. */
  lemma {:induction false} PathIsHarmlessExactly(db: Database<Trie>, callerId: string)
    requires Valid(db) && Sound(db) && AllDigits(callerId) && Usable(Count(db.interAreas, callerId))
    requires OneKind(Collected(db.interAreas, callerId, 0))
    ensures var count, path := Count(db.interAreas, callerId), Collected(db.interAreas, callerId, 0);
            && (CarriersThroughout(count, path) <==> HarmlessHistory(count, path))
            && (CarriersThroughout(count, path) ==> AllCollected(db, callerId))
  {
    hide Add, AddAll, Collected, CarriersThroughout, KeysThroughout, HarmlessHistory, OneKind, IsBest;
    var count, path := Count(db.interAreas, callerId), Collected(db.interAreas, callerId, 0);
    AllNonzeroCollected(db.interAreas, callerId);
    CountIsCollected(db.interAreas, callerId, 0, 0);
    CarriersAreKeys(count, path);
    KeysThroughoutExactly(count, path);
    if HarmlessHistory(count, path) {
      forall carrier | HasInterArea(db, callerId, carrier)
        ensures HasCarrier(InterCarriers(db, callerId).Visible(), carrier)
      {
        var n :| 0 <= n <= |callerId| && HasCarrier(db.interAreas.RoutesAt(callerId[..n]), carrier);
        var r :| r in db.interAreas.RoutesAt(callerId[..n]) && r.value == carrier;
        InCollected(db.interAreas, callerId, 0, r);
        CarriersAreKnown(db, callerId, r);
      }
    }
  }
}
