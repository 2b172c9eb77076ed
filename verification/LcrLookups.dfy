/** Looking up a call in the LCR database: by area, by the caller's inter-area prefixes, or mixed. */
module LcrLookups {
  import opened RouteArrays
  import opened RouteArrayLaws
  import opened RouteTries
  import opened TopRoutes
  import opened TrieLookups

  /** The parts of the LCR database that a lookup reads; `T` is a trie, on the heap or as a value. */
  datatype Database<T> = Database(
    inter: T, intra: T, areas: T, interAreas: T, numCarriers: nat,
    callerIdStrip: int, callerIdPrefix: string, destStrip: int, destPrefix: string)

  ghost predicate Valid(db: Database<Trie>) {
    db.inter.Valid() && db.intra.Valid() && db.areas.Valid() && db.interAreas.Valid()
  }

  /** The conversion to the 8-bit parameter of `route_array_create`. */
  function ToSize(n: nat): Size {
    n % 0x100
  }

  function StripPlus(s: string): string {
    if s != "" && s[0] == '+' then s[1..] else s
  }

  function FindArea(areas: Trie, number: string): int
    requires areas.Valid()
  {
    if number == "" then -1
    else
      var (found, n) := Find(areas, number, Fresh(1));
      if n > 0 then found.slots[0].value else -1
  }

  predicate BadStrip(strip: int, number: string) {
    number == "" || strip < 0 || strip >= |number|
  }

  function IsInterArea(db: Database<Trie>, callerId: string, dest: string): bool
    requires Valid(db)
  {
    !BadStrip(db.callerIdStrip, callerId) && !BadStrip(db.destStrip, dest) &&
    var src := FindArea(db.areas, db.callerIdPrefix + callerId[db.callerIdStrip..]);
    var dst := FindArea(db.areas, db.destPrefix + dest[db.destStrip..]);
    src >= 0 && dst >= 0 && src != dst
  }

  predicate HasCarrier(rs: seq<Route>, value: Value) {
    exists r :: r in rs && r.value == value
  }

  /** The routes of the wanted type whose carrier is, for inter-area routes, or is not, for the others,
      among the carriers that treat the caller as inter-area. */
  function Chosen(rs: seq<Route>, carriers: seq<Route>, inter: bool): (c: seq<Route>)
    ensures forall r :: r in c <==> r in rs && (r.kind != 0) == inter && HasCarrier(carriers, r.value) == inter
  {
    if rs == [] then []
    else
      var last := rs[|rs| - 1];
      var c := Chosen(rs[..|rs| - 1], carriers, inter);
      if (last.kind != 0) == inter && HasCarrier(carriers, last.value) == inter then c + [last] else c
  }

  /** The routes that a lookup reports, out of those it put into its array. */
  function Reported(found: (Table, Size)): seq<Route>
    requires found.0.Valid()
  {
    if found.1 <= found.0.size then found.0.slots[..found.1] else found.0.Visible()
  }

  function InterCarriers(db: Database<Trie>, callerId: string): (t: Table)
    requires Valid(db)
    ensures t.Valid()
  {
    Find(db.interAreas, callerId, Fresh(ToSize(Count(db.interAreas, callerId)))).0
  }

  function Mixed(db: Database<Trie>, callerId: string, dest: string, results: Table): (t: Table)
    requires Valid(db) && results.Valid()
    ensures t.Valid()
  {
    var carriers := InterCarriers(db, callerId).Visible();
    var intra := Find(db.intra, dest, Fresh(ToSize(db.numCarriers)));
    var inter := Find(db.inter, dest, Fresh(ToSize(db.numCarriers)));
    AddAll(AddAll(results, Chosen(Reported(intra), carriers, false)), Chosen(Reported(inter), carriers, true))
  }

  /** What a lookup leaves in its result array. */
  function FindRoutes(db: Database<Trie>, callerId: string, dest: string, results: Table): Table
    requires Valid(db) && results.Valid()
  {
    if dest == "" then results
    else
      var d, c := StripPlus(dest), StripPlus(callerId);
      var count := Count(db.interAreas, c);
      if IsInterArea(db, c, d) || count >= db.numCarriers then Find(db.inter, d, results).0
      else if count == 0 then Find(db.intra, d, results).0
      else Mixed(db, c, d, results)
  }

  // ---------------------------------------------------------------------------------------------
  // The lookup on the heap
  // ---------------------------------------------------------------------------------------------

  ghost predicate HeapValid(db: Database<RouteTrie>)
    reads db.inter, db.inter.Repr, db.intra, db.intra.Repr
    reads db.areas, db.areas.Repr, db.interAreas, db.interAreas.Repr
  {
    db.inter.Valid() && db.intra.Valid() && db.areas.Valid() && db.interAreas.Valid()
  }

  ghost function View(db: Database<RouteTrie>): (v: Database<Trie>)
    reads db.inter, db.inter.Repr, db.intra, db.intra.Repr
    reads db.areas, db.areas.Repr, db.interAreas, db.interAreas.Repr
    requires HeapValid(db)
    ensures Valid(v)
  {
    Database(db.inter.view, db.intra.view, db.areas.view, db.interAreas.view, db.numCarriers,
             db.callerIdStrip, db.callerIdPrefix, db.destStrip, db.destPrefix)
  }

  ghost predicate Apart(db: Database<RouteTrie>, results: RouteArray)
    reads db.inter, db.intra, db.areas, db.interAreas
  {
    {results, results.route} !! db.inter.Repr + db.intra.Repr + db.areas.Repr + db.interAreas.Repr
  }

  method LookUpArea(areas: RouteTrie, number: string) returns (area: int)
    requires areas.Valid()
    ensures area == FindArea(areas.view, number)
  {
    hide AddAll, Trie.Valid, RouteTrie.NodesValid, RouteTrie.Separate, RouteTrie.Linked, RouteTrie.TenWide;
    if number == "" {
      return -1;
    }
    var result := new RouteArray(1);
    var n := areas.Lookup(number, result);
    FindReportsAtMost(areas.view, number, 0, Fresh(1));
    if n > 0 {
      var found := result.GetRoute(0);
      return found.route.value;
    }
    return -1;
  }

  method InterArea(db: Database<RouteTrie>, callerId: string, dest: string) returns (inter: bool)
    requires HeapValid(db)
    ensures inter == IsInterArea(View(db), callerId, dest)
  {
    if callerId == "" || db.callerIdStrip >= |callerId| || db.callerIdStrip < 0 {
      return false;
    }
    if dest == "" || db.destStrip >= |dest| || db.destStrip < 0 {
      return false;
    }
    var src := LookUpArea(db.areas, db.callerIdPrefix + callerId[db.callerIdStrip..]);
    var dst := LookUpArea(db.areas, db.destPrefix + dest[db.destStrip..]);
    return src >= 0 && dst >= 0 && src != dst;
  }

  lemma {:induction false} ChosenStep(rs: seq<Route>, i: nat, carriers: seq<Route>, inter: bool)
    requires i < |rs|
    ensures var c := Chosen(rs[..i], carriers, inter);
            Chosen(rs[..i + 1], carriers, inter) ==
            if (rs[i].kind != 0) == inter && HasCarrier(carriers, rs[i].value) == inter then c + [rs[i]] else c
  {
    assert rs[..i + 1][..i] == rs[..i];
  }

  lemma {:induction false} ChosenNone(t: Table, rs: seq<Route>, carriers: seq<Route>, inter: bool)
    requires t.Valid()
    ensures AddAll(t, Chosen(rs[..0], carriers, inter)) == t
  {
  }

  /** One of the two filtering loops of mixed routing. */
  method AddChosen(found: RouteArray, n: Size, carriers: RouteArray, inter: bool, results: RouteArray)
    requires found.Valid() && carriers.Valid() && results.Valid() && n <= found.size
    requires results != found && results != carriers && results.route != found.route && results.route != carriers.route
    modifies results`size, results.route
    ensures results.Valid()
    ensures results.State() ==
            AddAll(old(results.State()), Chosen(found.State().slots[..n], carriers.State().Visible(), inter))
  {
    hide Add, AddAll, Chosen;
    ghost var rs, cs := found.State().slots[..n], carriers.State().Visible();
    ChosenNone(old(results.State()), rs, cs, inter);
    for i := 0 to n
      invariant results.Valid() && n <= found.size
      invariant found.State().slots[..n] == rs && carriers.State().Visible() == cs
      invariant results.State() == AddAll(old(results.State()), Chosen(rs[..i], cs, inter))
    {
      var route := found.route[i];
      assert route == rs[i];
      ChosenStep(rs, i, cs, inter);
      var known := carriers.Contains(route.value);
      assert known == HasCarrier(cs, route.value);
      if (route.kind != 0) == inter && known == inter {
        AddAllStep(old(results.State()), Chosen(rs[..i], cs, inter), route);
        results.Insert(route);
      }
    }
    assert rs[..n] == rs;
  }

  /** `lcr_find`: fill `results` and report how many routes it holds. */
  method LookUpCall(db: Database<RouteTrie>, callerId: string, dest: string, results: RouteArray) returns (n: Size)
    requires HeapValid(db) && results.Valid() && Apart(db, results)
    modifies results`size, results.route
    ensures HeapValid(db) && View(db) == old(View(db)) && results.Valid()
    ensures results.State() == FindRoutes(View(db), callerId, dest, old(results.State()))
    ensures n == if dest == "" then 0 else results.size
  {
    hide AddAll, Add, Trie.Valid, RouteTrie.NodesValid, RouteTrie.Separate, RouteTrie.Linked, RouteTrie.TenWide;
    hide Count, IsInterArea, RouteTrie.Valid;
    if dest == "" {
      return 0;
    }
    var d := if dest[0] == '+' then dest[1..] else dest;
    var c := if callerId != "" && callerId[0] == '+' then callerId[1..] else callerId;
    var inter := InterArea(db, c, d);
    var count := db.interAreas.FindCount(c);
    if inter || count >= db.numCarriers {
      var found := db.inter.Lookup(d, results);
    } else if count == 0 {
      var found := db.intra.Lookup(d, results);
    } else {
      LookUpMixed(db, c, d, count, results);
    }
    return results.size;
  }

  method LookUpMixed(db: Database<RouteTrie>, c: string, d: string, count: nat, results: RouteArray)
    requires HeapValid(db) && results.Valid() && Apart(db, results)
    requires count == Count(View(db).interAreas, c)
    modifies results`size, results.route
    ensures HeapValid(db) && View(db) == old(View(db)) && results.Valid()
    ensures results.State() == Mixed(View(db), c, d, old(results.State()))
  {
    hide AddAll, Add, Trie.Valid, RouteTrie.NodesValid, RouteTrie.Separate, RouteTrie.Linked, RouteTrie.TenWide;
    hide Count, RouteTrie.Valid, Find;
    var carriers := new RouteArray(ToSize(count));
    var n := db.interAreas.Lookup(c, carriers);
    AddTrie(db.intra, d, db.numCarriers, carriers, false, results);
    AddTrie(db.inter, d, db.numCarriers, carriers, true, results);
  }

  /** One of the two halves of mixed routing: look up one trie, then filter what it found into `results`. */
  method AddTrie(trie: RouteTrie, d: string, numCarriers: nat, carriers: RouteArray, inter: bool, results: RouteArray)
    requires trie.Valid() && carriers.Valid() && results.Valid() && {results, results.route} !! trie.Repr
    requires results != carriers && results.route != carriers.route
    modifies results`size, results.route
    ensures results.Valid()
    ensures results.State() ==
            AddAll(old(results.State()),
                   Chosen(Reported(Find(trie.view, d, Fresh(ToSize(numCarriers)))), carriers.State().Visible(), inter))
  {
    hide AddAll, Add, Trie.Valid, RouteTrie.NodesValid, RouteTrie.Separate, RouteTrie.Linked, RouteTrie.TenWide;
    hide RouteTrie.Valid, Find, Reported;
    var found := new RouteArray(ToSize(numCarriers));
    var n := trie.Lookup(d, found);
    ReportedIs(trie.view, d, found.State(), n, ToSize(numCarriers));
    AddChosen(found, n, carriers, inter, results);
  }

  lemma {:induction false} ReportedIs(t: Trie, key: string, table: Table, n: Size, capacity: Size)
    requires t.Valid() && (table, n) == Find(t, key, Fresh(capacity))
    ensures n <= table.size && Reported((table, n)) == table.slots[..n]
  {
    FindReportsAtMost(t, key, 0, Fresh(capacity));
  }

  lemma {:induction false} FindReportsAtMost(t: Trie, key: string, k: nat, results: Table)
    requires t.Valid() && k <= |key| && results.Valid()
    ensures FindFrom(t, key, k, results).1 <= FindFrom(t, key, k, results).0.size
    decreases |key| - k
  {
    hide AddAll;
    if k < |key| && key[..k + 1] in t.paths {
      FindReportsAtMost(t, key, k + 1, AddAll(results, t.RoutesAt(key[..k])));
    }
  }
}
