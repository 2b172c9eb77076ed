/** The array holds the cheapest routes of its history all along exactly when every add was harmless. */
module TopRoutesExactly {
  import opened RouteArrays
  import opened RouteArrayLaws
  import opened TopRoutes

  /** One of the first n routes has the key of `x`. */
  ghost predicate KeyAmong(rs: seq<Route>, n: nat, x: Route)
    requires n <= |rs|
  {
    exists j :: 0 <= j < n && SameKey(rs[j], x)
  }

  /** Every stale slot has the key of a visible route. */
  ghost predicate StaleKeysVisible(t: Table)
    requires t.Valid()
  {
    forall k :: t.size <= k < Used(t.slots) ==> KeyAmong(t.slots, t.size, t.slots[k])
  }

  /** After making room, what is past the end has the key of the new route or of one that stays. */
  lemma {:induction false} VacatedKeys(t: Table, r: Route)
    requires Packed(t) && StaleKeysVisible(t)
    ensures var v := Vacate(t, r);
            forall k :: v.size <= k < Used(v.slots) ==> SameKey(v.slots[k], r) || KeyAmong(v.slots, v.size, v.slots[k])
  {
    var v, i := Vacate(t, r), FindKey(t, r);
    VacateKeeps(t, r);
    if i < t.size {
      forall k | v.size <= k < Used(v.slots)
        ensures SameKey(v.slots[k], r) || KeyAmong(v.slots, v.size, v.slots[k])
      {
        RemoveSlot(t, i, k);
        if k == t.size - 1 {
          if i < k {
            RemoveSlot(t, i, k - 1);
            assert SameKey(v.slots[k - 1], v.slots[k]);
          }
        } else {
          var j :| 0 <= j < t.size && SameKey(t.slots[j], t.slots[k]);
          if j != i {
            var j' := if j < i then j else j - 1;
            RemoveSlot(t, i, j');
            assert SameKey(v.slots[j'], v.slots[k]);
          }
        }
      }
    }
  }

  /** An effective add, slot by slot. */
  lemma {:induction false} AddIs(t: Table, r: Route) returns (v: Table, p: nat)
    requires Packed(t) && Usable(|t.slots|) && r.value != 0 && !HasCheaper(t, r)
    ensures v == Vacate(t, r) && v.size == Exposed(t, r) && v.size <= Used(v.slots) && Ordered(v.slots)
    ensures p == FindSpot(v.slots, r.cost) <= Used(v.slots)
    ensures Add(t, r) == Table(Splice(v.slots, p, r), Min(v.size + 1, |t.slots|))
    ensures v.size < |t.slots| ==> v.slots[v.size] == t.slots[v.size]
  {
    v := Vacate(t, r);
    p := FindSpot(v.slots, r.cost);
    VacateKeeps(t, r);
    VacateIsWithout(t, r);
    AddSplices(t, r);
    SpotIsUsedAtMost(v.slots, r.cost);
  }

  lemma {:induction false} SpliceKeys(slots: seq<Route>, q: nat, p: nat, r: Route, k: nat)
    requires Ordered(slots) && q <= Used(slots) && p <= Used(slots) && q < k < |slots|
    requires forall j :: q <= j < Used(slots) ==> SameKey(slots[j], r) || KeyAmong(slots, q, slots[j])
    requires KeyAmong(Splice(slots, p, r), q + 1, r) && Splice(slots, p, r)[k].value != 0
    ensures KeyAmong(Splice(slots, p, r), q + 1, Splice(slots, p, r)[k])
  {
    var s := Splice(slots, p, r);
    if SameKey(s[k], r) {
      var j :| 0 <= j <= q && SameKey(s[j], r);
      assert SameKey(s[j], s[k]);
    } else {
      var k' := if k < p then k else k - 1;
      assert s[k] == slots[k'];
      var j :| 0 <= j < q && SameKey(slots[j], slots[k']);
      assert SameKey(s[if j < p then j else j + 1], s[k]);
    }
  }

  /** A harmless add keeps the new route and all that stayed visible, and what is stale has one of their keys. */
  lemma {:induction false} HarmlessKeepsStaleKeys(t: Table, r: Route)
    requires Packed(t) && Usable(|t.slots|) && r.value != 0 && StaleKeysVisible(t) && Harmless(t, r)
    ensures StaleKeysVisible(Add(t, r))
  {
    hide KeyAmong, Add, Vacate, FindSpot, Shift;
    if HasCheaper(t, r) {
      assert Add(t, r) == t by { CheaperStays(t, r); }
    } else {
      var v, p := AddIs(t, r);
      VacatedKeys(t, r);
      if v.size < |t.slots| {
        NewIsVisible(v.slots, v.size, p, r);
        forall k | v.size + 1 <= k < Used(Add(t, r).slots)
          ensures KeyAmong(Add(t, r).slots, v.size + 1, Add(t, r).slots[k])
        {
          SpliceKeys(v.slots, v.size, p, r, k);
        }
      }
    }
  }

  lemma {:induction false} CheaperStays(t: Table, r: Route)
    requires t.Valid() && HasCheaper(t, r)
    ensures Add(t, r) == t
  {
  }

  lemma {:induction false} NewIsVisible(slots: seq<Route>, q: nat, p: nat, r: Route)
    requires Ordered(slots) && q < |slots| && q <= Used(slots) && p == FindSpot(slots, r.cost) <= Used(slots)
    requires slots[q].value == 0 || slots[q].cost > r.cost || slots[q] == r
    ensures KeyAmong(Splice(slots, p, r), q + 1, r)
  {
    var s := Splice(slots, p, r);
    if p <= q {
      assert SameKey(s[p], r);
    } else {
      assert SameKey(s[q], r);
    }
  }

  ghost predicate KeysOnce(rs: seq<Route>) {
    forall i, j :: 0 <= i < j < |rs| ==> !SameKey(rs[i], rs[j])
  }

  /** A harmful add shows some key twice. */
  lemma {:induction false} HarmfulRepeatsKey(t: Table, r: Route)
    requires Packed(t) && Usable(|t.slots|) && r.value != 0 && StaleKeysVisible(t) && !Harmless(t, r)
    ensures !KeysOnce(Add(t, r).Visible())
  {
    hide KeyAmong, Add, Shift;
    var v, p := AddIs(t, r);
    var q, s := v.size, Add(t, r).Visible();
    assert q < p by { StaleIsPassed(v.slots, q, r); }
    assert s == v.slots[..q + 1];
    ExposedRepeats(t, r);
    var j :| 0 <= j < q && SameKey(v.slots[j], v.slots[q]);
    assert SameKey(s[j], s[q]);
  }

  /** And it loses the key that was to be added. */
  lemma {:induction false} HarmfulLosesKey(t: Table, r: Route)
    requires Packed(t) && Usable(|t.slots|) && r.value != 0 && StaleKeysVisible(t) && KeysOnce(t.Visible())
    requires !Harmless(t, r)
    ensures forall x :: x in Add(t, r).Visible() ==> !SameKey(x, r)
  {
    hide KeyAmong, Add, Shift, Packed, FindSpot;
    var v, p := AddIs(t, r);
    var q, s := v.size, Add(t, r).Visible();
    assert q < p by { StaleIsPassed(v.slots, q, r); }
    assert s == v.slots[..q + 1];
    ExposedRepeats(t, r);
    KeptDiffer(t, r);
    var j :| 0 <= j < q && SameKey(v.slots[j], v.slots[q]);
  }

  /** None of the routes that stay has the key of the new one. */
  lemma {:induction false} KeptDiffer(t: Table, r: Route)
    requires t.Valid() && KeysOnce(t.Visible())
    ensures var v := Vacate(t, r); forall k :: 0 <= k < v.size ==> !SameKey(v.slots[k], r)
  {
    var i, v := FindKey(t, r), Vacate(t, r);
    if i < t.size {
      forall k | 0 <= k < v.size ensures !SameKey(v.slots[k], r) {
        RemoveSlot(t, i, k);
        var k' := if i <= k then k + 1 else k;
        assert v.slots[k] == t.Visible()[k'] && t.slots[i] == t.Visible()[i];
        assert !SameKey(t.Visible()[if k' < i then k' else i], t.Visible()[if k' < i then i else k']);
      }
    }
  }

  lemma {:induction false} StaleIsPassed(slots: seq<Route>, q: nat, r: Route)
    requires Ordered(slots) && q < |slots| && slots[q].value != 0 && slots[q].cost <= r.cost
    ensures q < FindSpot(slots, r.cost)
  {
    assert q < Used(slots);
    assert forall p :: 0 <= p <= q ==> slots[p].cost <= slots[q].cost;
  }

  /** The slot that a harmful add exposes has the key of a route before it. */
  lemma {:induction false} ExposedRepeats(t: Table, r: Route)
    requires Packed(t) && Usable(|t.slots|) && r.value != 0 && StaleKeysVisible(t) && !Harmless(t, r)
    ensures var v := Vacate(t, r);
            v.size < |v.slots| && exists j :: 0 <= j < v.size && SameKey(v.slots[j], v.slots[v.size])
  {
    var i, v := FindKey(t, r), Vacate(t, r);
    if i < t.size {
      var q := t.size - 1;
      RemoveSlot(t, i, q);
      assert v.slots[q] == t.slots[q];
      assert i < q;
      RemoveSlot(t, i, q - 1);
      assert SameKey(v.slots[q - 1], v.slots[q]);
    } else {
      assert KeyAmong(t.slots, t.size, t.slots[t.size]);
    }
  }

  // ---------------------------------------------------------------------------------------------
  // Whole histories
  // ---------------------------------------------------------------------------------------------

  lemma {:induction false} HarmlessHistoryKeepsStaleKeys(capacity: Size, rs: seq<Route>)
    requires Usable(capacity) && Nonzero(rs) && HarmlessHistory(capacity, rs)
    ensures StaleKeysVisible(AddAll(Fresh(capacity), rs))
    decreases |rs|
  {
    hide Add, StaleKeysVisible, Harmless, Packed;
    if rs == [] {
      assert StaleKeysVisible(Fresh(capacity)) by { FreshHasNoStaleKeys(capacity); }
    } else {
      var n := |rs| - 1;
      NonzeroParts(rs);
      HarmlessHistoryKeepsStaleKeys(capacity, rs[..n]);
      HistoryKeepsOrder(capacity, rs[..n]);
      AddAllStep(Fresh(capacity), rs[..n], rs[n]);
      HarmlessKeepsStaleKeys(AddAll(Fresh(capacity), rs[..n]), rs[n]);
    }
  }

  lemma {:induction false} FreshHasNoStaleKeys(capacity: Size)
    ensures StaleKeysVisible(Fresh(capacity))
  {
    UsedIs(Fresh(capacity).slots, 0);
  }

  /** After every add, the array shows the cheapest routes of the history so far. */
  ghost predicate BestThroughout(capacity: Size, rs: seq<Route>) {
    && IsBest(rs, capacity, AddAll(Fresh(capacity), rs).Visible(), false)
    && (rs == [] || BestThroughout(capacity, rs[..|rs| - 1]))
  }

  lemma {:induction false} BestHasKeysOnce(rs: seq<Route>, capacity: nat, best: seq<Route>)
    requires IsBest(rs, capacity, best, false)
    ensures KeysOnce(best)
  {
  }

  /** The promise of the header, all along: exactly for harmless histories. */
  lemma {:induction false} BestThroughoutExactly(capacity: Size, rs: seq<Route>)
    requires Usable(capacity) && Nonzero(rs)
    ensures BestThroughout(capacity, rs) <==> HarmlessHistory(capacity, rs)
    decreases |rs|
  {
    hide Add, StaleKeysVisible, Harmless, Packed, KeysOnce, IsBest;
    if HarmlessHistory(capacity, rs) {
      HarmlessHistoryIsBest(capacity, rs);
    }
    if rs != [] {
      var n, t := |rs| - 1, AddAll(Fresh(capacity), rs[..|rs| - 1]);
      NonzeroParts(rs);
      BestThroughoutExactly(capacity, rs[..n]);
      if BestThroughout(capacity, rs) {
        HarmlessHistoryKeepsStaleKeys(capacity, rs[..n]);
        HistoryKeepsOrder(capacity, rs[..n]);
        AddAllStep(Fresh(capacity), rs[..n], rs[n]);
        BestHasKeysOnce(rs, capacity, Add(t, rs[n]).Visible());
        if !Harmless(t, rs[n]) {
          HarmfulRepeatsKey(t, rs[n]);
        }
      }
    }
  }

  /** Nothing can go wrong in two adds, so StaleRouteResurfaces is as short as an example can be. */
  lemma {:induction false} TwoAddsAreHarmless(capacity: Size, rs: seq<Route>)
    requires Usable(capacity) && Nonzero(rs) && |rs| <= 2
    ensures HarmlessHistory(capacity, rs) && BestThroughout(capacity, rs)
  {
    hide Add, Harmless, AddAll, BestThroughout;
    if rs != [] {
      NonzeroParts(rs);
      FirstIsHarmless(capacity, rs[0]);
      assert AddAll(Fresh(capacity), []) == Fresh(capacity) by { NoAdds(capacity); }
      assert [rs[0]][..0] == [] && HarmlessHistory(capacity, []);
      assert HarmlessHistory(capacity, [rs[0]]);
      assert |rs| == 1 ==> rs == [rs[0]];
      if |rs| == 2 {
        assert rs[..1] == [rs[0]] && rs[0] in rs;
        SecondIsHarmless(capacity, rs[0], rs[1]);
      }
    }
    BestThroughoutExactly(capacity, rs);
  }

  lemma {:induction false} NoAdds(capacity: Size)
    ensures AddAll(Fresh(capacity), []) == Fresh(capacity)
  {
  }

  lemma {:induction false} FirstIsHarmless(capacity: Size, r: Route)
    ensures Harmless(Fresh(capacity), r)
  {
  }

  lemma {:induction false} SecondIsHarmless(capacity: Size, a: Route, b: Route)
    requires Usable(capacity) && a.value != 0 && b.value != 0
    ensures Harmless(AddAll(Fresh(capacity), [a]), b)
  {
    hide AddAll, Add;
    var t := AddAll(Fresh(capacity), [a]);
    assert Nonzero([a]);
    OneAdd(capacity, a);
    assert t.slots[0] == a;
    if t.size < capacity {
      assert t.slots[t.size] == EMPTY;
    }
  }

  lemma {:induction false} OneAdd(capacity: Size, a: Route)
    requires Usable(capacity) && a.value != 0
    ensures var t := AddAll(Fresh(capacity), [a]);
            && t.Valid() && |t.slots| == capacity && t.size == 1
            && t.slots[0] == a && forall k :: 0 < k < capacity ==> t.slots[k] == EMPTY
  {
    hide Add;
    var t := Fresh(capacity);
    FreshIsPacked(capacity);
    AddAllStep(t, [], a);
    NoAdds(capacity);
    AddSplices(t, a);
    assert [] + [a] == [a];
    assert FindSpot(t.slots, a.cost) == 0;
    assert Vacate(t, a) == t;
  }

  /** Two adds, spelled out: a route of the same value and type gives way unless it is cheaper; otherwise both stay, and of
      equal costs the first stays in front. */
  lemma {:induction false} TwoAddsAre(capacity: Size, a: Route, b: Route)
    requires Usable(capacity) && 2 <= capacity && a.value != 0 && b.value != 0
    ensures AddAll(Fresh(capacity), [a, b]).Visible()
         == if a.value == b.value && a.kind == b.kind then [if a.cost < b.cost then a else b]
            else if a.cost <= b.cost then [a, b] else [b, a]
  {
    hide AddAll, HarmlessHistory, BestThroughout, IsBest, Offer;
    TwoAddsAreHarmless(capacity, [a, b]);
    HarmlessExactly(capacity, [a, b]);
    assert [a, b][..1] == [a] && [a][..0] == [];
    FirstOffer(a, capacity);
    SecondOffer(a, b, capacity);
    assert OfferAll([], capacity) == [];
    assert OfferAll([a], capacity) == [a];
    assert AgreesThroughout(capacity, [a, b]);
  }

  lemma {:induction false} FirstOffer(a: Route, capacity: nat)
    requires capacity > 0
    ensures Offer([], a, capacity) == [a]
  {
  }

  lemma {:induction false} SecondOffer(a: Route, b: Route, capacity: nat)
    requires capacity > 1 && a.value != 0 && b.value != 0
    ensures Offer([a], b, capacity)
         == if a.value == b.value && a.kind == b.kind then [if a.cost < b.cost then a else b]
            else if a.cost <= b.cost then [a, b] else [b, a]
  {
    var k := IndexOfKey([a], b);
    if SameKey(a, b) {
      assert k == 0 && Without([a], 0) == [] && FindSpot([], b.cost) == 0;
      assert Put([], 0, b, capacity) == [b];
    } else {
      assert k == 1 && Without([a], 1) == [a];
      assert FindSpot([a], b.cost, 1) == 1;
      assert FindSpot([a], b.cost) == if a.cost > b.cost then 0 else 1;
      assert Put([a], 0, b, capacity) == [b, a] && Put([a], 1, b, capacity) == [a, b];
    }
  }
}
