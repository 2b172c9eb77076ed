/** What every history of adds keeps, for nonzero values and capacities 1 to 254: the physical array stays sorted
    with its empty slots at the end, the visible routes were all added, and the first one is the cheapest ever added. */
module RouteArrayLaws {
  import opened RouteArrays

  /** Number of slots before the first empty one (visible or stale). */
  function Used(slots: seq<Route>, i: nat := 0): (u: nat)
    requires i <= |slots|
    ensures i <= u <= |slots|
    ensures forall j :: i <= j < u ==> slots[j].value != 0
    ensures u < |slots| ==> slots[u].value == 0
    decreases |slots| - i
  {
    if i == |slots| || slots[i].value == 0 then i else Used(slots, i + 1)
  }

  ghost predicate SortedTo(rs: seq<Route>, n: nat)
    requires n <= |rs|
  {
    forall i, j :: 0 <= i <= j < n ==> rs[i].cost <= rs[j].cost
  }

  ghost predicate Sorted(rs: seq<Route>) {
    SortedTo(rs, |rs|)
  }

  /** Occupied slots come first, in cost order; the rest were never written. */
  ghost predicate Ordered(slots: seq<Route>) {
    && SortedTo(slots, Used(slots))
    && forall i :: Used(slots) <= i < |slots| ==> slots[i] == EMPTY
  }

  ghost predicate Packed(t: Table) {
    && t.Valid()
    && Ordered(t.slots)
    && t.size <= Used(t.slots)
    && (t.size == 0 ==> Used(t.slots) == 0)
  }

  ghost predicate Usable(capacity: int) {
    1 <= capacity <= 254
  }

  ghost predicate Nonzero(rs: seq<Route>) {
    forall r :: r in rs ==> r.value != 0
  }

  lemma {:induction false} UsedIs(slots: seq<Route>, u: nat, i: nat := 0)
    requires i <= u <= |slots|
    requires forall j :: i <= j < u ==> slots[j].value != 0
    requires u < |slots| ==> slots[u].value == 0
    ensures Used(slots, i) == u
    decreases u - i
  {
    if i < u {
      UsedIs(slots, u, i + 1);
    }
  }

  function Min(a: int, b: int): int {
    if a < b then a else b
  }

  /** `slots` with `r` put in at `p`, losing the last slot. */
  function Splice(slots: seq<Route>, p: nat, r: Route): (s: seq<Route>)
    requires p <= |slots|
    ensures |s| == |slots|
    ensures forall j :: 0 <= j < |s| ==> s[j] == if j < p then slots[j] else if j == p then r else slots[j - 1]
  {
    seq(|slots|, j requires 0 <= j < |slots| => if j < p then slots[j] else if j == p then r else slots[j - 1])
  }

  /** On an ordered array the in-place shift is an insertion that drops the last slot. */
  lemma {:induction false} ShiftSplices(slots: seq<Route>, p: nat, r: Route)
    requires p <= Used(slots) && r.value != 0
    requires forall i :: Used(slots) <= i < |slots| ==> slots[i] == EMPTY
    ensures Shift(slots, p, r) == Splice(slots, p, r)
    decreases |slots| - p
  {
    if p < |slots| {
      var next := slots[p := r];
      if p == Used(slots) {
        assert Shift(slots, p, r) == Shift(next, p + 1, EMPTY) == next;
      } else {
        UsedIs(next, Used(slots));
        ShiftSplices(next, p + 1, slots[p]);
        assert Splice(next, p + 1, slots[p]) == Splice(slots, p, r);
      }
    }
  }

  lemma {:induction false} RemoveKeeps(t: Table, i: nat)
    requires t.Valid() && Ordered(t.slots) && t.size <= Used(t.slots) && i < t.size
    ensures var v := Remove(t, i);
            Ordered(v.slots) && Used(v.slots) == Used(t.slots) && (forall x :: x in v.slots ==> x in t.slots)
  {
    var v := Remove(t, i);
    forall j | 0 <= j < |v.slots|
      ensures v.slots[j] == t.slots[if i <= j < t.size - 1 then j + 1 else j]
    {
      RemoveSlot(t, i, j);
    }
    UsedIs(v.slots, Used(t.slots));
  }

  lemma {:induction false} VacateKeeps(t: Table, r: Route)
    requires t.Valid() && Ordered(t.slots) && t.size <= Used(t.slots)
    ensures var v := Vacate(t, r);
            Ordered(v.slots) && Used(v.slots) == Used(t.slots) && v.size <= Used(v.slots)
            && t.size - 1 <= v.size <= t.size
            && (forall x :: x in v.slots ==> x in t.slots)
  {
    var i := FindKey(t, r);
    if i < t.size {
      RemoveKeeps(t, i);
      assert Vacate(t, r) == Remove(t, i);
    } else {
      assert Vacate(t, r) == t;
    }
  }

  lemma {:induction false} SpotIsUsedAtMost(slots: seq<Route>, cost: Cost)
    ensures FindSpot(slots, cost) <= Used(slots)
  {
  }

  lemma {:induction false} SpliceSorted(slots: seq<Route>, u: nat, p: nat, r: Route)
    requires p <= u <= |slots| && SortedTo(slots, u)
    requires forall j :: 0 <= j < p ==> slots[j].cost <= r.cost
    requires p < u ==> slots[p].cost > r.cost
    ensures SortedTo(Splice(slots, p, r), Min(u + 1, |slots|))
  {
    var s := Splice(slots, p, r);
    forall i, j | 0 <= i <= j < Min(u + 1, |s|)
      ensures s[i].cost <= s[j].cost
    {
      if p < j {
        assert slots[p].cost <= slots[j - 1].cost;
        var i' := if i < p then i else if i == p then p else i - 1;
        assert slots[i'].cost <= slots[j - 1].cost;
      }
    }
  }

  lemma {:induction false} SpliceKeeps(slots: seq<Route>, r: Route)
    requires Ordered(slots) && r.value != 0
    ensures var s := Splice(slots, FindSpot(slots, r.cost), r);
            Ordered(s) && Used(s) == Min(Used(slots) + 1, |slots|)
  {
    hide Used, FindSpot;
    var p := FindSpot(slots, r.cost);
    SpotIsUsedAtMost(slots, r.cost);
    var u := Used(slots);
    SpliceSorted(slots, u, p, r);
    UsedIs(Splice(slots, p, r), Min(u + 1, |slots|));
  }

  /** What one add does to an ordered array, when no cheaper copy is visible. */
  lemma {:induction false} AddSplices(t: Table, r: Route)
    requires t.Valid() && Ordered(t.slots) && t.size <= Used(t.slots)
    requires Usable(|t.slots|) && r.value != 0 && !HasCheaper(t, r)
    ensures var v := Vacate(t, r);
            Add(t, r) == Table(Splice(v.slots, FindSpot(v.slots, r.cost), r), Min(v.size + 1, |t.slots|))
  {
    VacateKeeps(t, r);
    var v := Vacate(t, r);
    SpotIsUsedAtMost(v.slots, r.cost);
    ShiftSplices(v.slots, FindSpot(v.slots, r.cost), r);
  }

  lemma {:induction false} AddKeepsPacked(t: Table, r: Route)
    requires Packed(t) && Usable(|t.slots|) && r.value != 0
    ensures Packed(Add(t, r)) && Add(t, r).size > 0
    ensures forall x :: x in Add(t, r).slots ==> x == r || x in t.slots
  {
    if !HasCheaper(t, r) {
      AddSplices(t, r);
      VacateKeeps(t, r);
      var v := Vacate(t, r);
      SpliceKeeps(v.slots, r);
    }
  }

  /** The first slot always costs the least of everything offered so far. */
  lemma {:induction false} AddKeepsHead(t: Table, r: Route)
    requires Packed(t) && Usable(|t.slots|) && r.value != 0
    ensures Add(t, r).slots[0].cost == if t.size == 0 then r.cost else Min(t.slots[0].cost, r.cost)
  {
    if !HasCheaper(t, r) {
      AddSplices(t, r);
      VacateKeeps(t, r);
      var v := Vacate(t, r);
      var i := FindKey(t, r);
      if i == 0 < t.size {
        assert v.slots[0] == if t.size > 1 then t.slots[1] else t.slots[0];
      } else if t.size > 0 {
        assert v.slots[0] == t.slots[0];
      }
    }
  }

  function MinCost(rs: seq<Route>): Cost
    requires rs != []
  {
    var last := rs[|rs| - 1];
    if |rs| == 1 then last.cost else Min(MinCost(rs[..|rs| - 1]), last.cost)
  }

  lemma {:induction false} MinCostIs(rs: seq<Route>)
    requires rs != []
    ensures forall r :: r in rs ==> MinCost(rs) <= r.cost
    ensures exists r :: r in rs && r.cost == MinCost(rs)
    decreases |rs|
  {
    var rest, last := rs[..|rs| - 1], rs[|rs| - 1];
    assert rs == rest + [last];
    assert last in rs;
    if rest != [] {
      MinCostIs(rest);
      var r :| r in rest && r.cost == MinCost(rest);
      assert r in rs;
    }
  }

  /** After any history of adds: sorted, nothing invented, and the first route is the cheapest ever added. */
  lemma {:induction false} HistoryKeepsOrder(capacity: Size, rs: seq<Route>)
    requires Usable(capacity) && Nonzero(rs)
    ensures var t := AddAll(Fresh(capacity), rs);
            && Packed(t) && Sorted(t.Visible())
            && (t.size == 0 <==> rs == [])
            && (rs != [] ==> t.slots[0].cost == MinCost(rs))
            && (forall r :: r in t.Visible() ==> r in rs)
            && (forall r :: r in t.slots ==> r == EMPTY || r in rs)
    decreases |rs|
  {
    hide Add, Ordered, Used;
    var t := AddAll(Fresh(capacity), rs);
    if rs == [] {
      FreshIsPacked(capacity);
    } else {
      var n := |rs| - 1;
      assert rs == rs[..n] + [rs[n]];
      assert forall r :: r in rs[..n] ==> r in rs;
      HistoryKeepsOrder(capacity, rs[..n]);
      var t0 := AddAll(Fresh(capacity), rs[..n]);
      AddKeepsPacked(t0, rs[n]);
      AddKeepsHead(t0, rs[n]);
    }
    PackedVisible(t);
  }

  lemma {:induction false} FreshIsPacked(capacity: Size)
    requires Usable(capacity)
    ensures Packed(Fresh(capacity))
  {
    UsedIs(Fresh(capacity).slots, 0);
  }

  lemma {:induction false} PackedVisible(t: Table)
    requires Packed(t)
    ensures Sorted(t.Visible()) && EMPTY !in t.Visible()
  {
  }

  // ---------------------------------------------------------------------------------------------
  // Where the assumptions are needed
  // ---------------------------------------------------------------------------------------------

  /** Adding a value of 0, which marks a slot as empty, keeps the array in order exactly when the size
      does not have to grow over an empty slot. */
  lemma {:induction false} ZeroValueExactly(t: Table, r: Route)
    requires Packed(t) && Usable(|t.slots|)
    ensures Packed(Add(t, r)) <==> r.value != 0 || t.size < Used(t.slots) || t.size == |t.slots|
  {
    if r.value != 0 {
      AddKeepsPacked(t, r);
    } else {
      assert FindKey(t, r) == |t.slots|;
      assert Add(t, r) == Table(t.slots, Bump(t.size, |t.slots|));
    }
  }

  /** The 8-bit size wraps to zero in exactly one case: a full array of capacity 255. */
  lemma {:induction false} WrapExactly(t: Table, r: Route)
    requires t.Valid() && |t.slots| > 0
    ensures Add(t, r).size == 0 <==> |t.slots| == 255 && t.size == 255 && FindKey(t, r) == 255
  {
  }

  /** One add to a reset array that was used before answers with the stale first slot. */
  lemma {:induction false} ResetAnswersStale(slots: seq<Route>, r: Route)
    requires Ordered(slots) && Usable(|slots|) && Used(slots) > 0
    requires r.value != 0 && slots[0].cost <= r.cost
    ensures AddAll(Table(slots, 0), [r]).Visible() == [slots[0]]
  {
    var reset := Table(slots, 0);
    var t := Add(reset, r);
    assert t.slots[0] == slots[0] && t.size == 1 by {
      AddSplices(reset, r);
    }
    assert AddAll(reset, [r]) == t by {
      AddAllStep(reset, [], r);
      assert [] + [r] == [r];
    }
  }

  /** A reset array answers every later history like a fresh one exactly when no slot was ever written. */
  lemma {:induction false} ResetIsFreshExactly(t: Table)
    requires Packed(t) && Usable(|t.slots|)
    ensures (forall rs :: Nonzero(rs) ==>
               AddAll(Table(t.slots, 0), rs).Visible() == AddAll(Fresh(|t.slots|), rs).Visible())
            <==> Used(t.slots) == 0
  {
    if Used(t.slots) == 0 {
      assert t.slots == Fresh(|t.slots|).slots;
    } else {
      var first := t.slots[0];
      var r := Route(0xFFFF, if first.value == 1 then 2 else 1, 0);
      ResetAnswersStale(t.slots, r);
      HistoryKeepsOrder(|t.slots|, [r]);
      var f := AddAll(Fresh(|t.slots|), [r]).Visible();
      assert f[0] in f && f[0] == r;
      assert Nonzero([r]);
    }
  }
}
