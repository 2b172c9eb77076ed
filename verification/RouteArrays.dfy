/** The bounded, cost-ordered route array: its exact in-place behaviour (specified on values by `Add`, `Remove`,
    `FindKey`, `FindSpot` and `Shift`) and the invariants that survive every history of adds. */
module RouteArrays {

  // route_cost_t and route_value_t are 16 bits wide, route_type_t and route_size_t 8 bits.
  type Cost = c: int | 0 <= c < 0x1_0000
  type Value = v: int | 0 <= v < 0x1_0000
  type Kind = k: int | 0 <= k < 0x100
  type Size = s: int | 0 <= s < 0x100

  datatype Route = Route(cost: Cost, value: Value, kind: Kind)

  datatype Lookup = NotFound | Found(route: Route)

  /** What calloc leaves in a slot; value 0 marks a slot as empty. */
  const EMPTY := Route(0, 0, 0)

  /** The contents of an array: every physical slot, and how many of them are visible. */
  datatype Table = Table(slots: seq<Route>, size: Size) {
    ghost predicate Valid() {
      size <= |slots| < 0x100
    }

    function Visible(): seq<Route>
      requires size <= |slots|
    {
      slots[..size]
    }
  }

  function Fresh(capacity: Size): Table {
    Table(seq(capacity, _ => EMPTY), 0)
  }

  predicate SameKey(a: Route, b: Route) {
    a.value == b.value && a.kind == b.kind
  }

  // ---------------------------------------------------------------------------------------------
  // The operations on values
  // ---------------------------------------------------------------------------------------------

  /** Index of the first visible route, from `i` on, with the key of `r`; the capacity when there is none. */
  function FindKey(t: Table, r: Route, i: nat := 0): (k: nat)
    requires t.Valid() && i <= t.size
    ensures i <= k <= |t.slots|
    ensures k < t.size ==> SameKey(t.slots[k], r) && forall j :: i <= j < k ==> !SameKey(t.slots[j], r)
    ensures k >= t.size ==> k == |t.slots| && forall j :: i <= j < t.size ==> !SameKey(t.slots[j], r)
    decreases t.size - i
  {
    if i == t.size then |t.slots|
    else if SameKey(t.slots[i], r) then i
    else FindKey(t, r, i + 1)
  }

  /** Index of the first physical slot, from `i` on, that is empty or costs more than `cost`. */
  function FindSpot(slots: seq<Route>, cost: Cost, i: nat := 0): (k: nat)
    requires i <= |slots|
    ensures i <= k <= |slots|
    ensures k < |slots| ==> slots[k].value == 0 || slots[k].cost > cost
    ensures forall j :: i <= j < k ==> slots[j].value != 0 && slots[j].cost <= cost
    decreases |slots| - i
  {
    if i == |slots| || slots[i].value == 0 || slots[i].cost > cost then i
    else FindSpot(slots, cost, i + 1)
  }

  /** Closing the gap leaves the old last route behind, just past the new end. */
  function Remove(t: Table, i: nat): (t': Table)
    requires t.Valid() && i < t.size
    ensures t'.Valid() && |t'.slots| == |t.slots|
  {
    Table(t.slots[..i] + t.slots[i + 1..t.size] + t.slots[t.size - 1..], t.size - 1)
  }

  lemma {:induction false} RemoveSlot(t: Table, i: nat, j: nat)
    requires t.Valid() && i < t.size && j < |t.slots|
    ensures Remove(t, i).slots[j] == t.slots[if i <= j < t.size - 1 then j + 1 else j]
  {
  }

  /** Push `cur` into slot `i`, and whatever was there into the next slot, until an empty slot has absorbed it
      or the last slot has been pushed out. */
  function Shift(slots: seq<Route>, i: nat, cur: Route): (slots': seq<Route>)
    requires i <= |slots|
    ensures |slots'| == |slots|
    decreases |slots| - i
  {
    if cur.value == 0 || i == |slots| then slots
    else Shift(slots[i := cur], i + 1, slots[i])
  }

  /** The 8-bit increment of the size, clamped to the capacity. */
  function Bump(size: Size, capacity: Size): Size {
    var s := (size + 1) % 0x100;
    if s > capacity then capacity else s
  }

  /** The table once any stored, not cheaper, copy of the key of `r` has been removed. */
  function Vacate(t: Table, r: Route): (t': Table)
    requires t.Valid()
    ensures t'.Valid() && |t'.slots| == |t.slots|
  {
    var i := FindKey(t, r);
    if i < t.size then Remove(t, i) else t
  }

  /** A cheaper route with the same key is already visible. */
  predicate HasCheaper(t: Table, r: Route)
    requires t.Valid()
  {
    var i := FindKey(t, r);
    i < t.size && t.slots[i].cost < r.cost
  }

  function Add(t: Table, r: Route): (t': Table)
    requires t.Valid()
    ensures t'.Valid() && |t'.slots| == |t.slots|
  {
    if HasCheaper(t, r) then t
    else
      var v := Vacate(t, r);
      Table(Shift(v.slots, FindSpot(v.slots, r.cost), r), Bump(v.size, |t.slots|))
  }

  function AddAll(t: Table, rs: seq<Route>): (t': Table)
    requires t.Valid()
    ensures t'.Valid() && |t'.slots| == |t.slots|
    decreases |rs|
  {
    if rs == [] then t else Add(AddAll(t, rs[..|rs| - 1]), rs[|rs| - 1])
  }

  lemma {:induction false} AddAllStep(t: Table, rs: seq<Route>, r: Route)
    requires t.Valid()
    ensures AddAll(t, rs + [r]) == Add(AddAll(t, rs), r)
  {
    assert (rs + [r])[..|rs|] == rs;
  }

  lemma {:induction false} AddAllConcat(t: Table, a: seq<Route>, b: seq<Route>)
    requires t.Valid()
    ensures AddAll(t, a + b) == AddAll(AddAll(t, a), b)
    decreases |b|
  {
    hide Add;
    if b == [] {
      assert a + b == a;
    } else {
      var n := |b| - 1;
      AddAllConcat(t, a, b[..n]);
      AddAllStep(t, a + b[..n], b[n]);
      AddAllStep(AddAll(t, a), b[..n], b[n]);
      assert b == b[..n] + [b[n]] && a + b == a + b[..n] + [b[n]];
    }
  }

  // ---------------------------------------------------------------------------------------------
  // The array, changed in place
  // ---------------------------------------------------------------------------------------------

  class RouteArray {
    const maxSize: Size
    var size: Size
    const route: array<Route>

    ghost predicate Valid()
      reads this
    {
      route.Length == maxSize && size <= maxSize
    }

    ghost function State(): (t: Table)
      reads this, route
      requires Valid()
      ensures t.Valid() && |t.slots| == maxSize
    {
      Table(route[..], size)
    }

    constructor (maxSize: Size)
      ensures Valid() && fresh(route)
      ensures this.maxSize == maxSize && State() == Fresh(maxSize)
    {
      this.maxSize := maxSize;
      this.size := 0;
      this.route := new Route[maxSize](_ => EMPTY);
    }

    method GetRoute(index: Size) returns (r: Lookup)
      requires Valid()
      ensures r == if index < size then Found(State().Visible()[index]) else NotFound
    {
      r := if index < size then Found(route[index]) else NotFound;
    }

    method Reset()
      requires Valid()
      modifies this`size
      ensures Valid() && State() == Table(old(State()).slots, 0)
    {
      size := 0;
    }

    method Contains(value: Value) returns (found: bool)
      requires Valid()
      ensures found <==> exists r :: r in State().Visible() && r.value == value
    {
      for i := 0 to size
        invariant forall j :: 0 <= j < i ==> route[j].value != value
      {
        if route[i].value == value {
          assert route[i] in State().Visible();
          return true;
        }
      }
      return false;
    }

    method FindByValueAndType(r: Route) returns (index: nat)
      requires Valid()
      ensures index == FindKey(State(), r)
    {
      for i := 0 to size
        invariant FindKey(State(), r) == FindKey(State(), r, i)
      {
        if route[i].value == r.value && route[i].kind == r.kind {
          return i;
        }
      }
      return maxSize;
    }

    method FindByCost(cost: Cost) returns (index: nat)
      requires Valid()
      ensures index == FindSpot(route[..], cost)
    {
      for i := 0 to maxSize
        invariant FindSpot(route[..], cost) == FindSpot(route[..], cost, i)
      {
        if route[i].value == 0 || route[i].cost > cost {
          return i;
        }
      }
      return maxSize;
    }

    method RemoveAt(i: nat)
      requires Valid() && i < size
      modifies this`size, route
      ensures Valid() && State() == Remove(old(State()), i)
    {
      ghost var was := route[..];
      var index := i;
      while index < size - 1
        invariant i <= index < size == old(size)
        invariant forall j :: 0 <= j < maxSize ==> route[j] == was[if i <= j < index then j + 1 else j]
      {
        route[index] := route[index + 1];
        index := index + 1;
      }
      size := size - 1;
      forall j | 0 <= j < maxSize
        ensures route[j] == Remove(old(State()), i).slots[j]
      {
        RemoveSlot(old(State()), i, j);
      }
    }

    method Insert(r: Route)
      requires Valid()
      modifies this`size, route
      ensures Valid() && State() == Add(old(State()), r)
    {
      hide Remove, FindSpot, AddAll;
      var cur := r;
      var i := FindByValueAndType(r);
      if i != maxSize {
        if route[i].cost < r.cost {
          return;
        }
        RemoveAt(i);
      }
      ghost var v := State();
      assert v == Vacate(old(State()), r);
      i := FindByCost(r.cost);
      while cur.value != 0 && i < maxSize
        invariant i <= maxSize && size == v.size
        invariant Shift(route[..], i, cur) == Shift(v.slots, FindSpot(v.slots, r.cost), r)
        decreases maxSize - i
      {
        ghost var before := route[..];
        var swap := route[i];
        route[i] := cur;
        cur := swap;
        assert route[..] == before[i := route[i]];
        i := i + 1;
      }
      var s := (size + 1) % 0x100;
      size := s;
      if size > maxSize {
        size := maxSize;
      }
    }
  }
}
