/** When the route array really holds the cheapest routes: the reference list `Offer`, the declarative top-k
    `IsBest` it maintains, and the exact condition under which the in-place array agrees with it. */
module TopRoutes {
  import opened RouteArrays
  import opened RouteArrayLaws

  // ---------------------------------------------------------------------------------------------
  // The reference: a plain list whose removals leave nothing behind
  // ---------------------------------------------------------------------------------------------

  function IndexOfKey(best: seq<Route>, r: Route, i: nat := 0): (k: nat)
    requires i <= |best|
    ensures i <= k <= |best|
    ensures k < |best| ==> SameKey(best[k], r)
    ensures forall j :: i <= j < k ==> !SameKey(best[j], r)
    decreases |best| - i
  {
    if i == |best| || SameKey(best[i], r) then i else IndexOfKey(best, r, i + 1)
  }

  function Without(best: seq<Route>, k: nat): (w: seq<Route>)
    requires k <= |best|
    ensures k < |best| ==> |w| == |best| - 1
    ensures k == |best| ==> w == best
    ensures forall j :: 0 <= j < |w| ==> w[j] == best[if j < k then j else j + 1]
  {
    if k == |best| then best else best[..k] + best[k + 1..]
  }

  /** `w` with `r` put in at `p`, cut to the capacity. */
  function Put(w: seq<Route>, p: nat, r: Route, capacity: nat): (s: seq<Route>)
    requires p <= |w|
    ensures |s| == Min(|w| + 1, capacity)
    ensures forall j :: 0 <= j < |s| ==> s[j] == if j < p then w[j] else if j == p then r else w[j - 1]
  {
    seq(Min(|w| + 1, capacity), j requires 0 <= j < |w| + 1 => if j < p then w[j] else if j == p then r else w[j - 1])
  }

  function Offer(best: seq<Route>, r: Route, capacity: nat): seq<Route> {
    var k := IndexOfKey(best, r);
    if k < |best| && best[k].cost < r.cost then best
    else
      var w := Without(best, k);
      Put(w, FindSpot(w, r.cost), r, capacity)
  }

  function OfferAll(rs: seq<Route>, capacity: nat): seq<Route> {
    if rs == [] then [] else Offer(OfferAll(rs[..|rs| - 1], capacity), rs[|rs| - 1], capacity)
  }

  // ---------------------------------------------------------------------------------------------
  // The array agrees with the reference, exactly when ...
  // ---------------------------------------------------------------------------------------------

  /** The slot that the growing size exposes. */
  function Exposed(t: Table, r: Route): nat
    requires t.Valid()
  {
    if FindKey(t, r) < t.size then t.size - 1 else t.size
  }

  /** Either the add changes nothing, or the slot that the growing size is about to expose is out of room, empty,
      more expensive than the new route, or equal to it. */
  ghost predicate Harmless(t: Table, r: Route)
    requires t.Valid()
  {
    HasCheaper(t, r) ||
    var q := Exposed(t, r);
    q == |t.slots| || t.slots[q].value == 0 || t.slots[q].cost > r.cost || t.slots[q] == r
  }

  lemma {:induction false} IndexOfVisible(t: Table, r: Route)
    requires t.Valid()
    ensures IndexOfKey(t.Visible(), r) == Min(FindKey(t, r), t.size)
  {
  }

  lemma {:induction false} VacateIsWithout(t: Table, r: Route)
    requires t.Valid()
    ensures Vacate(t, r).Visible() == Without(t.Visible(), IndexOfKey(t.Visible(), r))
    ensures var q := Vacate(t, r).size; q < |t.slots| ==> Vacate(t, r).slots[q] == t.slots[q]
  {
    IndexOfVisible(t, r);
    var i := FindKey(t, r);
    if i < t.size {
      assert Vacate(t, r) == Remove(t, i);
    } else {
      assert Vacate(t, r) == t;
    }
  }

  lemma {:induction false} SpotInPrefix(slots: seq<Route>, n: nat, cost: Cost)
    requires n <= Used(slots)
    ensures FindSpot(slots[..n], cost) == Min(FindSpot(slots, cost), n)
  {
  }

  /** What is visible after an effective add, and what the reference then lists. */
  lemma {:induction false} EffectiveAdd(t: Table, r: Route) returns (v: Table, p: nat)
    requires Packed(t) && Usable(|t.slots|) && r.value != 0 && !HasCheaper(t, r)
    ensures v.Valid() && Ordered(v.slots) && v.size <= Used(v.slots) && v.size == Exposed(t, r)
    ensures |v.slots| == |t.slots| && p == FindSpot(v.slots, r.cost) <= Used(v.slots)
    ensures v.size < |t.slots| ==> v.slots[v.size] == t.slots[v.size]
    ensures Add(t, r).Visible() == Splice(v.slots, p, r)[..Min(v.size + 1, |t.slots|)]
    ensures Offer(t.Visible(), r, |t.slots|) == Put(v.slots[..v.size], Min(p, v.size), r, |t.slots|)
  {
    v := Vacate(t, r);
    p := FindSpot(v.slots, r.cost);
    IndexOfVisible(t, r);
    VacateKeeps(t, r);
    VacateIsWithout(t, r);
    AddSplices(t, r);
    SpotInPrefix(v.slots, v.size, r.cost);
    SpotIsUsedAtMost(v.slots, r.cost);
  }

  lemma {:induction false} SpliceIsPut(slots: seq<Route>, n: nat, p: nat, r: Route)
    requires p <= n <= |slots|
    ensures Splice(slots, p, r)[..Min(n + 1, |slots|)] == Put(slots[..n], p, r, |slots|)
  {
  }

  lemma {:induction false} SpliceBeyond(slots: seq<Route>, n: nat, p: nat, r: Route)
    requires n < p <= |slots|
    ensures Splice(slots, p, r)[..n + 1] == Put(slots[..n], n, r, |slots|) <==> slots[n] == r
  {
    var got, want := Splice(slots, p, r)[..n + 1], Put(slots[..n], n, r, |slots|);
    assert got[n] == slots[n] && want[n] == r;
    assert forall j :: 0 <= j < n ==> got[j] == slots[j] && want[j] == slots[j];
    if slots[n] == r {
      assert got == want;
    }
  }

  /** One add, from any reachable array: the visible routes are those of the reference exactly when it is harmless. */
  lemma {:induction false} AddMatchesOfferExactly(t: Table, r: Route)
    requires Packed(t) && Usable(|t.slots|) && r.value != 0
    ensures Add(t, r).Visible() == Offer(t.Visible(), r, |t.slots|) <==> Harmless(t, r)
  {
    if HasCheaper(t, r) {
      IndexOfVisible(t, r);
    } else {
      EffectiveAddMatchesExactly(t, r);
    }
  }

  lemma {:induction false} EffectiveAddMatchesExactly(t: Table, r: Route)
    requires Packed(t) && Usable(|t.slots|) && r.value != 0 && !HasCheaper(t, r)
    ensures Add(t, r).Visible() == Offer(t.Visible(), r, |t.slots|) <==> Harmless(t, r)
  {
    var v, p := EffectiveAdd(t, r);
    var q := Exposed(t, r);
    if p <= q {
      SpliceIsPut(v.slots, q, p, r);
      assert Harmless(t, r) by {
        assert q < Used(v.slots) ==> v.slots[p].cost <= v.slots[q].cost;
      }
    } else {
      SpliceBeyond(v.slots, q, p, r);
      assert Harmless(t, r) <==> v.slots[q] == r;
    }
  }

  /** Every add of the history is harmless when it happens. */
  ghost predicate HarmlessHistory(capacity: Size, rs: seq<Route>) {
    rs == [] ||
    var before := rs[..|rs| - 1];
    HarmlessHistory(capacity, before) && Harmless(AddAll(Fresh(capacity), before), rs[|rs| - 1])
  }

  lemma {:induction false} NonzeroParts(rs: seq<Route>)
    requires Nonzero(rs) && rs != []
    ensures Nonzero(rs[..|rs| - 1]) && rs[|rs| - 1].value != 0
    ensures rs == rs[..|rs| - 1] + [rs[|rs| - 1]]
  {
    assert rs[|rs| - 1] in rs;
  }

  /** After every add of the history, the array shows what the reference lists. */
  ghost predicate AgreesThroughout(capacity: Size, rs: seq<Route>) {
    && AddAll(Fresh(capacity), rs).Visible() == OfferAll(rs, capacity)
    && (rs == [] || AgreesThroughout(capacity, rs[..|rs| - 1]))
  }

  /** Over whole histories: the array follows the reference all along exactly when every add was harmless. */
  lemma {:induction false} HarmlessExactly(capacity: Size, rs: seq<Route>)
    requires Usable(capacity) && Nonzero(rs)
    ensures AgreesThroughout(capacity, rs) <==> HarmlessHistory(capacity, rs)
    decreases |rs|
  {
    if rs != [] {
      var before := rs[..|rs| - 1];
      NonzeroParts(rs);
      HarmlessExactly(capacity, before);
      HistoryKeepsOrder(capacity, before);
      AddMatchesOfferExactly(AddAll(Fresh(capacity), before), rs[|rs| - 1]);
    }
  }

  // ---------------------------------------------------------------------------------------------
  // The reference holds the top routes
  // ---------------------------------------------------------------------------------------------

  /** A route as cheap as its key was ever offered at. */
  ghost predicate Champion(rs: seq<Route>, c: Route) {
    c in rs && forall r :: r in rs && SameKey(r, c) ==> c.cost <= r.cost
  }

  function FirstIndex(rs: seq<Route>, r: Route): (i: nat)
    ensures i <= |rs| && (i < |rs| <==> r in rs)
    ensures i < |rs| ==> rs[i] == r
  {
    if rs == [] then 0 else if rs[0] == r then 0 else 1 + FirstIndex(rs[1..], r)
  }

  lemma {:induction false} FirstIndexAppend(rs: seq<Route>, r: Route, x: Route)
    ensures FirstIndex(rs + [r], x) == if x in rs then FirstIndex(rs, x) else if x == r then |rs| else |rs| + 1
  {
    if rs != [] {
      assert (rs + [r])[1..] == rs[1..] + [r];
      FirstIndexAppend(rs[1..], r, x);
    } else {
      assert rs + [r] == [r];
    }
  }

  /** Cheaper first; with `arrival`, ties go to the route that was offered first. */
  ghost predicate Before(rs: seq<Route>, x: Route, y: Route, arrival: bool) {
    x.cost < y.cost || (x.cost == y.cost && (arrival ==> FirstIndex(rs, x) < FirstIndex(rs, y)))
  }

  /** `best` is the list of the `capacity` first champions of the history `rs`. */
  ghost predicate IsBest(rs: seq<Route>, capacity: nat, best: seq<Route>, arrival: bool) {
    && |best| <= capacity
    && (forall i, j :: 0 <= i < j < |best| ==> Before(rs, best[i], best[j], arrival) && !SameKey(best[i], best[j]))
    && (forall b :: b in best ==> Champion(rs, b))
    && (forall c :: Champion(rs, c) && c !in best ==>
          |best| == capacity && forall b :: b in best ==> Before(rs, b, c, arrival))
  }

  lemma {:induction false} ChampionOf(rs: seq<Route>, r: Route) returns (c: Route)
    requires r in rs
    ensures Champion(rs, c) && SameKey(c, r)
    decreases |rs|
  {
    var last := rs[|rs| - 1];
    var rest := rs[..|rs| - 1];
    assert rs == rest + [last];
    if r in rest {
      c := ChampionOf(rest, r);
      if SameKey(last, r) && last.cost < c.cost {
        c := last;
      }
    } else if exists x :: x in rest && SameKey(x, r) {
      var x :| x in rest && SameKey(x, r);
      c := ChampionOf(rest, x);
      if last.cost < c.cost {
        c := last;
      }
    } else {
      c := last;
    }
  }

  lemma {:induction false} BeforeAppend(rs: seq<Route>, r: Route, x: Route, y: Route, arrival: bool)
    requires x in rs && y in rs
    ensures Before(rs + [r], x, y, arrival) == Before(rs, x, y, arrival)
  {
    FirstIndexAppend(rs, r, x);
    FirstIndexAppend(rs, r, y);
  }

  /** The offered route comes after a listed one that does not cost more. */
  lemma {:induction false} ListedComesFirst(rs: seq<Route>, best: seq<Route>, r: Route, capacity: nat, x: Route, arrival: bool)
    requires IsBest(rs, capacity, best, arrival) && (arrival ==> r !in best)
    requires x in best && x.cost <= r.cost && Champion(rs + [r], r)
    ensures Before(rs + [r], x, r, arrival)
  {
    FirstIndexAppend(rs, r, x);
    FirstIndexAppend(rs, r, r);
    if r in rs {
      assert Champion(rs, r);
      if r !in best {
        assert Before(rs, x, r, arrival);
      }
    }
  }

  /** The cheaper copy is a champion, so the offer changes nothing. */
  lemma {:induction false} IgnoredOffer(rs: seq<Route>, best: seq<Route>, r: Route, capacity: nat, arrival: bool)
    requires IsBest(rs, capacity, best, arrival)
    requires var k := IndexOfKey(best, r); k < |best| && best[k].cost < r.cost
    ensures IsBest(rs + [r], capacity, best, arrival)
  {
    var rs' := rs + [r];
    var k := IndexOfKey(best, r);
    forall b | b in best
      ensures Champion(rs', b)
    {
      var j :| 0 <= j < |best| && best[j] == b;
      assert k < j ==> !SameKey(best[k], best[j]);
    }
    forall i, j | 0 <= i < j < |best|
      ensures Before(rs', best[i], best[j], arrival)
    {
      assert best[i] in best && best[j] in best;
      BeforeAppend(rs, r, best[i], best[j], arrival);
    }
    forall c, b | Champion(rs', c) && c !in best && b in best
      ensures |best| == capacity && Before(rs', b, c, arrival)
    {
      assert best[k] in best && best[k] in rs && SameKey(best[k], r);
      assert forall x :: x in rs ==> x in rs';
      assert c != r;
      assert Champion(rs, c);
      BeforeAppend(rs, r, b, c, arrival);
    }
    assert best[k] in best;
  }

  /** The facts about one effective offer that the three parts of the proof share. */
  ghost predicate Effective(rs: seq<Route>, best: seq<Route>, r: Route, capacity: nat, arrival: bool,
                            w: seq<Route>, p: nat, s: seq<Route>)
  {
    var k := IndexOfKey(best, r);
    && capacity > 0 && IsBest(rs, capacity, best, arrival) && (arrival ==> r !in best)
    && (k < |best| ==> r.cost <= best[k].cost)
    && w == Without(best, k)
    && p <= |w| && (forall j :: 0 <= j < p ==> w[j].cost <= r.cost)
    && (forall j :: p <= j < |w| ==> w[j].cost > r.cost)
    && s == Put(w, p, r, capacity)
  }

  lemma {:induction false} RestOf(rs: seq<Route>, best: seq<Route>, r: Route, capacity: nat, arrival: bool,
               w: seq<Route>, p: nat, s: seq<Route>)
    requires Effective(rs, best, r, capacity, arrival, w, p, s)
    ensures forall x :: x in w ==> x in best && x in rs && !SameKey(x, r)
    ensures forall x :: x in best && !SameKey(x, r) ==> x in w
    ensures forall x :: x in s ==> x == r || x in w
    ensures forall i, j :: 0 <= i < j < |w| ==> Before(rs, w[i], w[j], arrival) && !SameKey(w[i], w[j])
  {
    hide IndexOfKey, FirstIndex, Before;
    var k := IndexOfKey(best, r);
    forall x | x in w
      ensures x in best && !SameKey(x, r)
    {
      var j :| 0 <= j < |w| && w[j] == x;
      var j' := if j < k then j else j + 1;
      assert best[j'] == x;
      if k < |best| && j' > k {
        assert !SameKey(best[k], best[j']);
      }
    }
    forall x | x in best && !SameKey(x, r)
      ensures x in w
    {
      var j :| 0 <= j < |best| && best[j] == x;
      assert w[if j < k then j else j - 1] == x;
    }
  }

  lemma {:induction false} NewRouteIsChampion(rs: seq<Route>, best: seq<Route>, r: Route, capacity: nat, arrival: bool,
                           w: seq<Route>, p: nat, s: seq<Route>)
    requires Effective(rs, best, r, capacity, arrival, w, p, s)
    requires p < capacity
    ensures Champion(rs + [r], r)
  {
    var k := IndexOfKey(best, r);
    forall h | h in rs && SameKey(h, r)
      ensures r.cost <= h.cost
    {
      if k < |best| {
        assert best[k] in best;
      } else {
        var c := ChampionOf(rs, h);
        assert c !in best;
        assert |w| == |best| == capacity && w[p] in best;
        assert Before(rs, w[p], c, arrival);
      }
    }
  }

  lemma {:induction false} EffectiveAt(rs: seq<Route>, best: seq<Route>, r: Route, capacity: nat, arrival: bool,
                    w: seq<Route>, p: nat, s: seq<Route>, i: nat)
    requires Effective(rs, best, r, capacity, arrival, w, p, s) && i < |s|
    ensures i <= |w| && p <= |w| && i < capacity
    ensures s[i] == if i < p then w[i] else if i == p then r else w[i - 1]
    ensures i < p ==> w[i].cost <= r.cost
    ensures i > p ==> w[i - 1].cost > r.cost
  {
  }

  lemma {:induction false} EffectiveOrder(rs: seq<Route>, best: seq<Route>, r: Route, capacity: nat, arrival: bool,
                       w: seq<Route>, p: nat, s: seq<Route>, i: nat, j: nat)
    requires Effective(rs, best, r, capacity, arrival, w, p, s) && i < j < |s|
    ensures Before(rs + [r], s[i], s[j], arrival) && !SameKey(s[i], s[j])
  {
    hide Effective, Champion, FirstIndex;
    RestOf(rs, best, r, capacity, arrival, w, p, s);
    EffectiveAt(rs, best, r, capacity, arrival, w, p, s, i);
    EffectiveAt(rs, best, r, capacity, arrival, w, p, s, j);
    if i == p {
      assert w[j - 1] in w;
    } else {
      var i' := if i < p then i else i - 1;
      assert w[i'] in w;
      if j == p {
        NewRouteIsChampion(rs, best, r, capacity, arrival, w, p, s);
        EffectiveTie(rs, best, r, capacity, arrival, w, p, s, w[i']);
      } else {
        var j' := if j < p then j else j - 1;
        assert w[j'] in w && Before(rs, w[i'], w[j'], arrival);
        BeforeAppend(rs, r, w[i'], w[j'], arrival);
      }
    }
  }

  lemma {:induction false} EffectiveTie(rs: seq<Route>, best: seq<Route>, r: Route, capacity: nat, arrival: bool,
                     w: seq<Route>, p: nat, s: seq<Route>, x: Route)
    requires Effective(rs, best, r, capacity, arrival, w, p, s)
    requires x in best && x.cost <= r.cost && Champion(rs + [r], r)
    ensures Before(rs + [r], x, r, arrival)
  {
    ListedComesFirst(rs, best, r, capacity, x, arrival);
  }

  lemma {:induction false} EffectiveChampions(rs: seq<Route>, best: seq<Route>, r: Route, capacity: nat, arrival: bool,
                           w: seq<Route>, p: nat, s: seq<Route>, b: Route)
    requires Effective(rs, best, r, capacity, arrival, w, p, s) && b in s
    ensures Champion(rs + [r], b)
  {
    RestOf(rs, best, r, capacity, arrival, w, p, s);
    if b == r {
      assert r !in w;
      NewRouteIsChampion(rs, best, r, capacity, arrival, w, p, s);
    }
  }

  lemma {:induction false} PutKeeps(w: seq<Route>, p: nat, r: Route, capacity: nat)
    requires p <= |w|
    ensures p < capacity ==> r in Put(w, p, r, capacity)
    ensures forall j :: 0 <= j < p && j < capacity ==> w[j] in Put(w, p, r, capacity)
    ensures forall j :: p <= j < |w| && j + 1 < capacity ==> w[j] in Put(w, p, r, capacity)
  {
    var s := Put(w, p, r, capacity);
    assert p < capacity ==> p < |s| && s[p] == r;
    forall j | 0 <= j < p && j < capacity
      ensures w[j] in s
    {
      assert s[j] == w[j];
    }
    forall j | p <= j < |w| && j + 1 < capacity
      ensures w[j] in s
    {
      assert s[j + 1] == w[j];
    }
  }

  /** A champion that the insertion pushed out was the last one listed. */
  lemma {:induction false} PushedOut(rs: seq<Route>, best: seq<Route>, r: Route, capacity: nat, arrival: bool,
                  w: seq<Route>, p: nat, s: seq<Route>, c: Route, b: Route)
    requires Effective(rs, best, r, capacity, arrival, w, p, s)
    requires c in w && c !in s && b in s
    ensures |s| == capacity && Before(rs + [r], b, c, arrival)
  {
    var j :| 0 <= j < |w| && w[j] == c;
    PutKeeps(w, p, r, capacity);
    assert j == |w| - 1 == capacity - 1 >= p;
    if b != r {
      RestOf(rs, best, r, capacity, arrival, w, p, s);
      var i :| 0 <= i < |w| && w[i] == b;
      assert b in best && c in best && b in rs && c in rs;
      assert b != c;
      assert Before(rs, w[i], w[j], arrival);
      BeforeAppend(rs, r, b, c, arrival);
    } else if b in w {
      RestOf(rs, best, r, capacity, arrival, w, p, s);
    }
  }

  /** A champion that was not listed before comes after everything listed now. */
  lemma {:induction false} StillOut(rs: seq<Route>, best: seq<Route>, r: Route, capacity: nat, arrival: bool,
                 w: seq<Route>, p: nat, s: seq<Route>, c: Route, b: Route)
    requires Effective(rs, best, r, capacity, arrival, w, p, s)
    requires Champion(rs, c) && c !in best && c != r && b in s
    ensures |s| == capacity && Before(rs + [r], b, c, arrival)
  {
    hide IndexOfKey, FirstIndex;
    RestOf(rs, best, r, capacity, arrival, w, p, s);
    var k := IndexOfKey(best, r);
    if b != r {
      assert b in best;
      BeforeAppend(rs, r, b, c, arrival);
    } else if k < |best| {
      assert best[k] in best && Before(rs, best[k], c, arrival);
      assert arrival ==> r.cost < best[k].cost;
    } else {
      assert r !in w;
      assert p < capacity;
      assert w[p] in best && Before(rs, w[p], c, arrival);
    }
  }

  lemma {:induction false} EffectiveExcluded(rs: seq<Route>, best: seq<Route>, r: Route, capacity: nat, arrival: bool,
                          w: seq<Route>, p: nat, s: seq<Route>, c: Route, b: Route)
    requires Effective(rs, best, r, capacity, arrival, w, p, s)
    requires Champion(rs + [r], c) && c !in s && b in s
    ensures |s| == capacity && Before(rs + [r], b, c, arrival)
  {
    RestOf(rs, best, r, capacity, arrival, w, p, s);
    if c == r {
      PutKeeps(w, p, r, capacity);
      assert p == |w| == capacity && b in w && b in best;
      ListedComesFirst(rs, best, r, capacity, b, arrival);
    } else if c in best {
      assert c in w by {
        SameKeyIsReplaced(rs, best, r, capacity, arrival, w, p, s, c);
      }
      PushedOut(rs, best, r, capacity, arrival, w, p, s, c, b);
    } else {
      assert Champion(rs, c);
      StillOut(rs, best, r, capacity, arrival, w, p, s, c, b);
    }
  }

  lemma {:induction false} SameKeyIsReplaced(rs: seq<Route>, best: seq<Route>, r: Route, capacity: nat, arrival: bool,
                          w: seq<Route>, p: nat, s: seq<Route>, c: Route)
    requires Effective(rs, best, r, capacity, arrival, w, p, s)
    requires Champion(rs + [r], c) && c != r && c in best
    ensures !SameKey(c, r)
  {
    var k := IndexOfKey(best, r);
    var j :| 0 <= j < |best| && best[j] == c;
    assert r in rs + [r];
    assert k < j ==> !SameKey(best[k], best[j]);
  }

  lemma {:induction false} OfferKeepsBest(rs: seq<Route>, best: seq<Route>, r: Route, capacity: nat, arrival: bool)
    requires IsBest(rs, capacity, best, arrival) && capacity > 0 && Nonzero(rs)
    requires arrival ==> r !in best
    ensures IsBest(rs + [r], capacity, Offer(best, r, capacity), arrival)
  {
    var k := IndexOfKey(best, r);
    if k < |best| && best[k].cost < r.cost {
      IgnoredOffer(rs, best, r, capacity, arrival);
    } else {
      var w := Without(best, k);
      var p := FindSpot(w, r.cost);
      var s := Put(w, p, r, capacity);
      assert Effective(rs, best, r, capacity, arrival, w, p, s) by {
        forall j | p <= j < |w|
          ensures w[j].cost > r.cost
        {
          var p' := if p < k then p else p + 1;
          var j' := if j < k then j else j + 1;
          assert w[p] == best[p'] && best[p'] in best && best[p'] in rs;
          if p < j {
            assert Before(rs, best[p'], best[j'], arrival);
          }
        }
      }
      forall i, j | 0 <= i < j < |s|
        ensures Before(rs + [r], s[i], s[j], arrival) && !SameKey(s[i], s[j])
      {
        EffectiveOrder(rs, best, r, capacity, arrival, w, p, s, i, j);
      }
      forall b | b in s
        ensures Champion(rs + [r], b)
      {
        EffectiveChampions(rs, best, r, capacity, arrival, w, p, s, b);
      }
      forall c | Champion(rs + [r], c) && c !in s
        ensures |s| == capacity && forall b :: b in s ==> Before(rs + [r], b, c, arrival)
      {
        forall b | b in s
          ensures |s| == capacity && Before(rs + [r], b, c, arrival)
        {
          EffectiveExcluded(rs, best, r, capacity, arrival, w, p, s, c, b);
        }
        assert s[0] in s;
      }
    }
  }

  /** No route of the history is offered while it is itself already listed. */
  ghost predicate NoRepeats(capacity: nat, rs: seq<Route>) {
    rs == [] ||
    var before := rs[..|rs| - 1];
    NoRepeats(capacity, before) && rs[|rs| - 1] !in OfferAll(before, capacity)
  }

  /** The reference list is the top of every history; with ties in arrival order when nothing listed is repeated. */
  lemma {:induction false} OfferAllIsBest(capacity: nat, rs: seq<Route>, arrival: bool)
    requires capacity > 0 && Nonzero(rs) && (arrival ==> NoRepeats(capacity, rs))
    ensures IsBest(rs, capacity, OfferAll(rs, capacity), arrival)
    decreases |rs|
  {
    if rs != [] {
      var before := rs[..|rs| - 1];
      NonzeroParts(rs);
      OfferAllIsBest(capacity, before, arrival);
      OfferKeepsBest(before, OfferAll(before, capacity), rs[|rs| - 1], capacity, arrival);
    }
  }

  /** With arrival order, the top of a history is a single list. */
  lemma {:induction false} BestIsUnique(rs: seq<Route>, capacity: nat, a: seq<Route>, b: seq<Route>)
    requires IsBest(rs, capacity, a, true) && IsBest(rs, capacity, b, true)
    ensures a == b
  {
    BestIsUniqueTo(rs, capacity, a, b, Min(|a|, |b|));
    if |a| < |b| {
      LongerIsImpossible(rs, capacity, a, b);
    } else if |b| < |a| {
      LongerIsImpossible(rs, capacity, b, a);
    }
  }

  lemma {:induction false} LongerIsImpossible(rs: seq<Route>, capacity: nat, a: seq<Route>, b: seq<Route>)
    requires IsBest(rs, capacity, a, true) && IsBest(rs, capacity, b, true)
    requires a == b[..Min(|a|, |b|)]
    ensures |b| <= |a|
  {
    if |a| < |b| {
      NextIsNew(rs, capacity, b, |a|);
      ListedOrFull(rs, capacity, a, b, b[|a|]);
    }
  }

  lemma {:induction false} NextIsNew(rs: seq<Route>, capacity: nat, b: seq<Route>, n: nat)
    requires IsBest(rs, capacity, b, true) && n < |b|
    ensures b[n] !in b[..n]
  {
    forall j | 0 <= j < n
      ensures b[..n][j] != b[n]
    {
      assert !SameKey(b[j], b[n]);
    }
  }

  lemma {:induction false} ListedOrFull(rs: seq<Route>, capacity: nat, a: seq<Route>, b: seq<Route>, x: Route)
    requires IsBest(rs, capacity, a, true) && IsBest(rs, capacity, b, true) && x in b
    ensures x in a || |a| == capacity
  {
    assert Champion(rs, x);
  }

  lemma {:induction false} BestIsUniqueTo(rs: seq<Route>, capacity: nat, a: seq<Route>, b: seq<Route>, n: nat)
    requires IsBest(rs, capacity, a, true) && IsBest(rs, capacity, b, true)
    requires n <= |a| && n <= |b|
    ensures a[..n] == b[..n]
  {
    if n > 0 {
      BestIsUniqueTo(rs, capacity, a, b, n - 1);
      assert forall i :: 0 <= i < n - 1 ==> a[i] == a[..n - 1][i] == b[i];
      NotEarlier(rs, capacity, a, b, n - 1);
      NotEarlier(rs, capacity, b, a, n - 1);
    }
  }

  lemma {:induction false} NotEarlier(rs: seq<Route>, capacity: nat, a: seq<Route>, b: seq<Route>, i: nat)
    requires IsBest(rs, capacity, a, true) && IsBest(rs, capacity, b, true)
    requires i < |a| && i < |b| && forall j :: 0 <= j < i ==> a[j] == b[j]
    ensures a[i] == b[i] || Before(rs, b[i], a[i], true)
  {
    assert a[i] in a && b[i] in b;
    if a[i] in b {
      var j :| 0 <= j < |b| && b[j] == a[i];
      assert j >= i;
    }
  }

  // ---------------------------------------------------------------------------------------------
  // Back to the array
  // ---------------------------------------------------------------------------------------------

  /** No add finds its own key stored at an equal or higher cost. */
  ghost predicate NoReplacement(capacity: Size, rs: seq<Route>) {
    rs == [] ||
    var before := rs[..|rs| - 1];
    var t := AddAll(Fresh(capacity), before);
    NoReplacement(capacity, before) && (FindKey(t, rs[|rs| - 1]) == capacity || HasCheaper(t, rs[|rs| - 1]))
  }

  lemma {:induction false} NewKeyLeavesNothingStale(t: Table, r: Route)
    requires Packed(t) && Usable(|t.slots|) && r.value != 0 && Used(t.slots) == t.size
    requires FindKey(t, r) == |t.slots| || HasCheaper(t, r)
    ensures Used(Add(t, r).slots) == Add(t, r).size
    ensures Harmless(t, r)
  {
    if !HasCheaper(t, r) {
      AddSplices(t, r);
      SpliceKeeps(t.slots, r);
    }
  }

  lemma {:induction false} NotListed(rs: seq<Route>, capacity: nat, best: seq<Route>, r: Route)
    requires IsBest(rs, capacity, best, false)
    requires var k := IndexOfKey(best, r); k < |best| ==> best[k].cost < r.cost
    ensures r !in best
  {
    var k := IndexOfKey(best, r);
    forall j | 0 <= j < |best|
      ensures best[j] != r
    {
      if k < j {
        assert !SameKey(best[k], best[j]);
      }
    }
  }

  lemma {:induction false} NoReplacementLaws(capacity: Size, rs: seq<Route>)
    requires Usable(capacity) && Nonzero(rs) && NoReplacement(capacity, rs)
    ensures var t := AddAll(Fresh(capacity), rs); Used(t.slots) == t.size
    ensures HarmlessHistory(capacity, rs) && NoRepeats(capacity, rs)
    decreases |rs|
  {
    if rs == [] {
      UsedIs(Fresh(capacity).slots, 0);
    } else {
      var before, r := rs[..|rs| - 1], rs[|rs| - 1];
      NonzeroParts(rs);
      NoReplacementLaws(capacity, before);
      HistoryKeepsOrder(capacity, before);
      var t := AddAll(Fresh(capacity), before);
      NewKeyLeavesNothingStale(t, r);
      HarmlessExactly(capacity, before);
      OfferAllIsBest(capacity, before, false);
      IndexOfVisible(t, r);
      NotListed(before, capacity, OfferAll(before, capacity), r);
    }
  }

  /** The main result: a harmless history leaves the cheapest routes of the history in the array. */
  lemma {:induction false} HarmlessHistoryIsBest(capacity: Size, rs: seq<Route>)
    requires Usable(capacity) && Nonzero(rs) && HarmlessHistory(capacity, rs)
    ensures IsBest(rs, capacity, AddAll(Fresh(capacity), rs).Visible(), false)
  {
    HarmlessExactly(capacity, rs);
    OfferAllIsBest(capacity, rs, false);
  }

  /** Without replacements: exactly the cheapest routes per key, ascending, ties in arrival order, each key once. */
  lemma {:induction false} NoReplacementIsBest(capacity: Size, rs: seq<Route>)
    requires Usable(capacity) && Nonzero(rs) && NoReplacement(capacity, rs)
    ensures IsBest(rs, capacity, AddAll(Fresh(capacity), rs).Visible(), true)
  {
    NoReplacementLaws(capacity, rs);
    HarmlessExactly(capacity, rs);
    OfferAllIsBest(capacity, rs, true);
  }

  /** A replacement leaves a stale copy that a later add makes visible again, losing the new route. */
  lemma {:induction false} StaleRouteResurfaces()
    ensures var rs := [Route(5, 1, 0), Route(3, 1, 0), Route(6, 2, 0)];
            && AddAll(Fresh(3), rs).Visible() == [Route(3, 1, 0), Route(5, 1, 0)]
            && OfferAll(rs, 3) == [Route(3, 1, 0), Route(6, 2, 0)]
            && !IsBest(rs, 3, AddAll(Fresh(3), rs).Visible(), false)
  {
    hide AddAll, Add, OfferAll, Offer, Fresh;
    var a, b, c := Route(5, 1, 0), Route(3, 1, 0), Route(6, 2, 0);
    FreshThree();
    FirstAdd(a);
    Replacement(a, b);
    LostAdd(a, b, c);
    AddThree(Fresh(3), a, b, c);
    ReferenceKeepsBoth(a, b, c);
    assert Table([b, a, c], 2).Visible() == [b, a];
    assert !IsBest([a, b, c], 3, [b, a], false) by { NotTwice([a, b, c], 3, [b, a]); }
  }

  lemma {:induction false} NotTwice(rs: seq<Route>, capacity: nat, best: seq<Route>)
    requires |best| == 2 && SameKey(best[0], best[1])
    ensures !IsBest(rs, capacity, best, false)
  {
  }

  lemma {:induction false} FreshThree()
    ensures Fresh(3) == Table([EMPTY, EMPTY, EMPTY], 0)
  {
  }

  lemma {:induction false} AddThree(t: Table, a: Route, b: Route, c: Route)
    requires t.Valid()
    ensures AddAll(t, [a, b, c]) == Add(Add(Add(t, a), b), c)
  {
    hide Add;
    AddAllStep(t, [a, b], c);
    AddAllStep(t, [a], b);
    AddAllStep(t, [], a);
    assert [a, b] + [c] == [a, b, c] && [a] + [b] == [a, b] && [] + [a] == [a];
  }

  lemma {:induction false} FirstAdd(a: Route)
    requires a.value != 0
    ensures Add(Table([EMPTY, EMPTY, EMPTY], 0), a) == Table([a, EMPTY, EMPTY], 1)
  {
    hide AddAll, Remove;
    assert Shift([EMPTY, EMPTY, EMPTY], 0, a) == [a, EMPTY, EMPTY];
  }

  lemma {:induction false} Replacement(a: Route, b: Route)
    requires SameKey(a, b) && b.cost < a.cost && a.value != 0
    ensures Add(Table([a, EMPTY, EMPTY], 1), b) == Table([b, a, EMPTY], 1)
  {
    hide AddAll, Remove, Shift;
    var t := Table([a, EMPTY, EMPTY], 1);
    RemoveOnly(a);
    ShiftBoth(a, b);
    assert FindKey(t, b) == 0 && Vacate(t, b) == Remove(t, 0);
  }

  lemma {:induction false} RemoveOnly(a: Route)
    ensures Remove(Table([a, EMPTY, EMPTY], 1), 0) == Table([a, EMPTY, EMPTY], 0)
  {
  }

  lemma {:induction false} ShiftBoth(a: Route, b: Route)
    requires a.value != 0 && b.value != 0
    ensures Shift([a, EMPTY, EMPTY], 0, b) == [b, a, EMPTY]
  {
    assert [a, EMPTY, EMPTY][0 := b] == [b, EMPTY, EMPTY];
    assert Shift([b, EMPTY, EMPTY], 1, a) == [b, a, EMPTY];
  }

  lemma {:induction false} LostAdd(a: Route, b: Route, c: Route)
    requires !SameKey(b, c) && b.cost <= c.cost && a.cost <= c.cost && a.value != 0 && b.value != 0 && c.value != 0
    ensures Add(Table([b, a, EMPTY], 1), c) == Table([b, a, c], 2)
  {
    hide AddAll, Remove;
    var s := [b, a, EMPTY];
    assert FindSpot(s, c.cost) == FindSpot(s, c.cost, 1) == FindSpot(s, c.cost, 2) == 2;
    assert Shift(s, 2, c) == [b, a, c];
  }

  lemma {:induction false} ReferenceKeepsBoth(a: Route, b: Route, c: Route)
    requires SameKey(a, b) && !SameKey(b, c) && b.cost <= a.cost && b.cost <= c.cost && b.value != 0
    ensures OfferAll([a, b, c], 3) == [b, c]
  {
    assert [a, b, c][..2] == [a, b] && [a, b][..1] == [a] && [a][..0] == [];
    assert OfferAll([a], 3) == Offer([], a, 3) == [a];
    assert Without([a], 0) == [];
    assert OfferAll([a, b], 3) == Offer([a], b, 3) == [b];
    assert Offer([b], c, 3) == [b, c];
  }
}
