/** The route trie: heap nodes proved to refine a map from digit strings to route arrays, and what a lookup
    returns after any history of adds. */
module RouteTries {
  import opened RouteArrays
  import opened RouteArrayLaws

  // ---------------------------------------------------------------------------------------------
  // The trie as a value
  // ---------------------------------------------------------------------------------------------

  predicate IsDigit(c: char) {
    '0' <= c <= '9'
  }

  /** The bad input of the trie is every other character. */
  lemma {:induction false} DigitsAre(c: char)
    ensures IsDigit(c) <==> c in "0123456789"
  {
  }

  predicate AllDigits(s: string) {
    forall i :: 0 <= i < |s| ==> IsDigit(s[i])
  }

  /** Number of characters before the first one that is not a digit. */
  function DigitRun(s: string, i: nat := 0): (n: nat)
    requires i <= |s|
    ensures i <= n <= |s|
    ensures forall j :: i <= j < n ==> IsDigit(s[j])
    ensures n < |s| ==> !IsDigit(s[n])
    decreases |s| - i
  {
    if i == |s| || !IsDigit(s[i]) then i else DigitRun(s, i + 1)
  }

  /** The digit strings that have a node, and the contents of the arrays that were created. */
  datatype Trie = Trie(paths: set<string>, entries: map<string, Table>, maxRoutes: Size) {
    ghost predicate Valid() {
      && "" in paths
      && (forall p :: p in entries ==> p in paths && entries[p].Valid() && |entries[p].slots| == maxRoutes)
      && (forall p, n :: p in paths && 0 <= n <= |p| ==> p[..n] in paths)
      && (forall p :: p in paths ==> AllDigits(p))
    }

    function At(p: string): Table {
      if p in entries then entries[p] else Fresh(maxRoutes)
    }

    /** The routes that a lookup sees at the node for `p`. */
    function RoutesAt(p: string): seq<Route>
      requires Valid()
    {
      if p in entries then entries[p].Visible() else []
    }
  }

  lemma {:induction false} AddPathKeepsValid(t: Trie, p: string, c: char)
    requires t.Valid() && p in t.paths && IsDigit(c)
    ensures t.(paths := t.paths + {p + [c]}).Valid()
  {
    var q := p + [c];
    forall n | 0 <= n <= |q|
      ensures q[..n] in t.paths + {q}
    {
      assert q[..n] == if n <= |p| then p[..n] else q;
    }
  }

  lemma {:induction false} StoreKeepsValid(t: Trie, p: string, table: Table)
    requires t.Valid() && p in t.paths && table.Valid() && |table.slots| == t.maxRoutes
    ensures t.(entries := t.entries[p := table]).Valid()
  {
  }

  lemma {:induction false} StoredOver(t: Trie, t': Trie, p: string, r: Route)
    requires t.Valid() && (t' == t || (p !in t.entries && t' == t.(entries := t.entries[p := Fresh(t.maxRoutes)])))
    ensures t.At(p).Valid() && t'.At(p) == t.At(p)
    ensures t'.(entries := t'.entries[p := Add(t'.At(p), r)]) == t.(entries := t.entries[p := Add(t.At(p), r)])
  {
    assert t'.entries[p := Add(t'.At(p), r)] == t.entries[p := Add(t.At(p), r)];
  }

  lemma {:induction false} NewPathHasNoEntry(t: Trie, q: string)
    requires t.Valid() && q !in t.paths
    ensures q !in t.entries
    ensures forall c: char :: q + [c] !in t.paths
  {
    forall c: char
      ensures q + [c] !in t.paths
    {
      assert (q + [c])[..|q|] == q;
    }
  }

  function PrefixesTo(s: string, n: nat): set<string>
    requires n <= |s|
  {
    set i | 0 <= i <= n :: s[..i]
  }

  lemma {:induction false} PrefixesStep(s: string, k: nat)
    requires k < |s|
    ensures PrefixesTo(s, k + 1) == PrefixesTo(s, k) + {s[..k + 1]}
  {
  }

  function NewTrie(maxRoutes: Size): Trie {
    Trie({""}, map[], maxRoutes)
  }

  /** One add: the nodes up to the first bad character, and the route only if there is none. */
  function AddRoute(t: Trie, prefix: string, r: Route): (t': Trie)
    requires t.Valid()
  {
    var paths := t.paths + PrefixesTo(prefix, DigitRun(prefix));
    if AllDigits(prefix) then Trie(paths, t.entries[prefix := Add(t.At(prefix), r)], t.maxRoutes)
    else t.(paths := paths)
  }

  /** The lookup from the node for `key[..k]` on: the filled array and the reported number of routes. */
  function FindFrom(t: Trie, key: string, k: nat, results: Table): (f: (Table, Size))
    requires t.Valid() && k <= |key| && results.Valid()
    ensures f.0.Valid() && |f.0.slots| == |results.slots|
    decreases |key| - k
  {
    var filled := AddAll(results, t.RoutesAt(key[..k]));
    if k == |key| then (filled, filled.size)
    else if !IsDigit(key[k]) then (filled, 0)
    else if key[..k + 1] in t.paths then FindFrom(t, key, k + 1, filled)
    else (filled, filled.size)
  }

  function Find(t: Trie, key: string, results: Table): (f: (Table, Size))
    requires t.Valid() && results.Valid()
    ensures f.0.Valid() && |f.0.slots| == |results.slots|
  {
    FindFrom(t, key, 0, results)
  }

  function CountFrom(t: Trie, key: string, k: nat, count: nat): nat
    requires t.Valid() && k <= |key|
    decreases |key| - k
  {
    var count' := count + |t.RoutesAt(key[..k])|;
    if k == |key| then count'
    else if !IsDigit(key[k]) then 0
    else if key[..k + 1] in t.paths then CountFrom(t, key, k + 1, count')
    else count'
  }

  function Count(t: Trie, key: string): nat
    requires t.Valid()
  {
    CountFrom(t, key, 0, 0)
  }

  // ---------------------------------------------------------------------------------------------
  // The trie on the heap
  // ---------------------------------------------------------------------------------------------

  class TrieNode {
    var child: seq<TrieNode?>
    var routes: RouteArray?
    /** The digit string that leads here. */
    ghost const path: string

    constructor (ghost path: string)
      ensures child == seq(10, _ => null) && routes == null && this.path == path
    {
      this.child := seq(10, _ => null);
      this.routes := null;
      this.path := path;
    }
  }

  function Digit(d: int): char
    requires 0 <= d < 10
  {
    '0' + d as char
  }

  class RouteTrie {
    const maxRoutes: Size
    const root: TrieNode
    /** The trie as a value. */
    ghost var view: Trie
    /** The node of every digit string that has one. */
    ghost var nodes: map<string, TrieNode>
    ghost var Repr: set<object>

    /** The node for `p` and its array hold what the view says. */
    ghost predicate NodeValid(p: string)
      reads this, Repr
      requires p in nodes
    {
      var n := nodes[p];
      && n in Repr && n.path == p
      && (n.routes == null <==> p !in view.entries)
      && (n.routes != null ==>
            && n.routes in Repr && n.routes.route in Repr
            && n.routes.maxSize == maxRoutes && n.routes.Valid() && n.routes.State() == view.entries[p])
    }

    ghost predicate NodesValid()
      reads this, Repr
    {
      forall p :: p in nodes ==> NodeValid(p)
    }

    /** No two nodes share an array. */
    ghost predicate Separate()
      reads this`nodes, nodes.Values`routes
    {
      forall p, q :: p in nodes && q in nodes && p != q && nodes[p].routes != null && nodes[q].routes != null ==>
        nodes[p].routes != nodes[q].routes && nodes[p].routes.route != nodes[q].routes.route
    }

    ghost predicate TenWide()
      reads this`nodes, nodes.Values`child
    {
      forall p :: p in nodes ==> |nodes[p].child| == 10
    }

    /** The child pointers are exactly the recorded nodes. */
    ghost predicate Linked()
      reads this`nodes, nodes.Values`child
      requires TenWide()
    {
      forall p, d {:trigger nodes[p].child[d]} :: p in nodes && 0 <= d < 10 ==>
        nodes[p].child[d] == if p + [Digit(d)] in nodes then nodes[p + [Digit(d)]] else null
    }

    ghost predicate Valid()
      reads this, Repr
    {
      && this in Repr
      && view.Valid() && view.paths == nodes.Keys && view.maxRoutes == maxRoutes
      && "" in nodes && nodes[""] == root
      && NodesValid() && Separate() && TenWide() && Linked()
    }

    constructor (maxRoutes: Size)
      ensures Valid() && fresh(Repr)
      ensures view == NewTrie(maxRoutes)
    {
      this.maxRoutes := maxRoutes;
      var node := new TrieNode("");
      this.root := node;
      this.view := NewTrie(maxRoutes);
      this.nodes := map["" := node];
      this.Repr := {this, node};
    }

    lemma {:induction false} ChildOf(p: string, d: int)
      requires Valid() && p in nodes && 0 <= d < 10
      ensures nodes[p] in Repr && |nodes[p].child| == 10
      ensures nodes[p].routes != null ==> nodes[p].routes in Repr && nodes[p].routes.route in Repr
      ensures nodes[p].child[d] == if p + [Digit(d)] in nodes then nodes[p + [Digit(d)]] else null
    {
    }

    /** Linking a new, childless node in under `p` keeps the pointers and the recorded nodes together. */
    twostate lemma LinkKept(new p: string, new d: nat, new child: TrieNode)
      requires old(TenWide()) && old(Linked()) && p in old(nodes) && d < 10
      requires p + [Digit(d)] !in old(nodes) && nodes == old(nodes)[p + [Digit(d)] := child]
      requires forall e :: 0 <= e < 10 ==> p + [Digit(d)] + [Digit(e)] !in old(nodes)
      requires forall x :: x in old(nodes) ==> old(nodes)[x] != child
      requires forall x :: x in old(nodes) && x != p ==> nodes[x].child == old(nodes[x].child)
      requires nodes[p].child == old(nodes[p].child)[d := child] && child.child == seq(10, _ => null)
      ensures TenWide() && Linked()
    {
      var q := p + [Digit(d)];
      forall x, e | x in nodes && 0 <= e < 10
        ensures nodes[x].child[e] == if x + [Digit(e)] in nodes then nodes[x + [Digit(e)]] else null
      {
        var y := x + [Digit(e)];
        if y == q {
          assert y[..|x|] == x && q[..|p|] == p && y[|x|] == Digit(e) && q[|p|] == Digit(d);
        }
      }
    }

    /** A new node without routes disturbs no other. */
    twostate lemma NodesKept(q: string, new child: TrieNode)
      requires old(NodesValid()) && old(Separate())
      requires q !in old(nodes) && q !in view.entries && view.entries == old(view).entries
      requires nodes == old(nodes)[q := child] && child.path == q && child.routes == null
      requires Repr == old(Repr) + {child}
      requires forall x :: x in old(nodes) ==> nodes[x].routes == old(nodes[x].routes)
      requires forall x :: x in old(nodes) && nodes[x].routes != null ==>
                 unchanged(nodes[x].routes) && unchanged(nodes[x].routes.route)
      ensures NodesValid() && Separate()
    {
      forall x | x in nodes
        ensures NodeValid(x)
      {
        if x != q {
          assert old(NodeValid(x));
        }
      }
    }

    /** Create the missing node for `p + [Digit(d)]`. */
    method CreateChild(ghost p: string, node: TrieNode, d: nat) returns (child: TrieNode)
      requires Valid() && p in nodes && nodes[p] == node && d < 10 && node.child[d] == null
      modifies this`nodes, this`Repr, this`view, node`child
      ensures Valid() && fresh(Repr - old(Repr)) && old(Repr) <= Repr
      ensures nodes == old(nodes)[p + [Digit(d)] := child]
      ensures view == old(view).(paths := old(view).paths + {p + [Digit(d)]})
    {
      hide Linked, TenWide, Separate, NodesValid, Trie.Valid;
      ghost var q := p + [Digit(d)];
      ChildOf(p, d);
      NodeFacts(p);
      AddPathKeepsValid(view, p, Digit(d));
      NewPathHasNoEntry(view, q);
      child := new TrieNode(q);
      node.child := node.child[d := child];
      nodes := nodes[q := child];
      Repr := Repr + {child};
      view := view.(paths := view.paths + {q});
      LinkKept(p, d, child);
      NodesKept(q, child);
    }

    /** Giving one node other routes disturbs no other node. */
    twostate lemma OthersKept(p: string)
      requires old(NodesValid()) && p in nodes && nodes == old(nodes) && old(Repr) <= Repr
      requires forall x :: x in nodes && x != p ==> nodes[x].routes == old(nodes[x].routes)
      requires forall x :: x in nodes && x != p && nodes[x].routes != null ==>
                 unchanged(nodes[x].routes) && unchanged(nodes[x].routes.route)
      requires view.entries.Keys == old(view).entries.Keys + {p}
      requires forall x :: x != p && x in view.entries ==> view.entries[x] == old(view).entries[x]
      requires NodeValid(p)
      ensures NodesValid()
    {
      forall x | x in nodes
        ensures NodeValid(x)
      {
        assert old(NodeValid(x));
      }
    }

    twostate lemma SeparateKept(p: string)
      requires old(Separate()) && p in nodes && nodes == old(nodes)
      requires forall x :: x in nodes && x != p ==> nodes[x].routes == old(nodes[x].routes)
      requires nodes[p].routes != null
      requires forall x :: x in nodes && x != p && nodes[x].routes != null ==>
                 nodes[x].routes != nodes[p].routes && nodes[x].routes.route != nodes[p].routes.route
      ensures Separate()
    {
    }

    /** What the invariant says about one node and about the arrays of the others. */
    lemma {:induction false} NodeFacts(p: string)
      requires Valid() && p in nodes
      ensures NodeValid(p)
      ensures forall x :: x in nodes && x != p ==> nodes[x] != nodes[p]
      ensures forall x :: x in nodes && nodes[x].routes != null ==> nodes[x].routes in Repr && nodes[x].routes.route in Repr
      ensures nodes[p].routes != null ==> forall x :: x in nodes && x != p && nodes[x].routes != null ==>
                nodes[x].routes != nodes[p].routes && nodes[x].routes.route != nodes[p].routes.route
    {
      assert forall x :: x in nodes ==> NodeValid(x);
    }

    /** Create the missing array of one node. */
    method CreateArray(ghost p: string, node: TrieNode)
      requires Valid() && p in nodes && nodes[p] == node && node.routes == null
      modifies this`Repr, this`view, node`routes
      ensures Valid() && fresh(Repr - old(Repr)) && old(Repr) <= Repr
      ensures nodes == old(nodes) && node.routes != null
      ensures view == old(view).(entries := old(view).entries[p := Fresh(maxRoutes)])
    {
      hide Trie.Valid, NodesValid, Separate, TenWide, Linked;
      NodeFacts(p);
      StoreKeepsValid(view, p, Fresh(maxRoutes));
      var routes := new RouteArray(maxRoutes);
      node.routes := routes;
      Repr := Repr + {routes, routes.route};
      view := view.(entries := view.entries[p := Fresh(maxRoutes)]);
      OthersKept(p);
      SeparateKept(p);
    }

    /** Offer a route to the existing array of one node. */
    method StoreAt(ghost p: string, node: TrieNode, r: Route)
      requires Valid() && p in nodes && nodes[p] == node && node.routes != null
      modifies this`view, node.routes`size, node.routes.route
      ensures Valid()
      ensures view == old(view).(entries := old(view).entries[p := Add(old(view).At(p), r)])
    {
      hide Add, Trie.Valid, NodesValid, Separate, TenWide, Linked;
      NodeFacts(p);
      ghost var t' := Add(view.At(p), r);
      StoreKeepsValid(view, p, t');
      node.routes.Insert(r);
      view := view.(entries := view.entries[p := t']);
      OthersKept(p);
    }

    /** The last step of `route_trie_add`. */
    method Store(ghost p: string, node: TrieNode, r: Route)
      requires Valid() && p in nodes && nodes[p] == node
      modifies Repr
      ensures Valid() && fresh(Repr - old(Repr)) && old(Repr) <= Repr
      ensures view == old(view).(entries := old(view).entries[p := Add(old(view).At(p), r)])
    {
      ChildOf(p, 0);
      ghost var t := view;
      hide NodesValid, Separate, Linked, TenWide, Trie.Valid, Add;
      if node.routes == null {
        CreateArray(p, node);
        ChildOf(p, 0);
      }
      ghost var t' := view;
      StoreAt(p, node, r);
      StoredOver(t, t', p, r);
    }

    /** One turn of the loop of `route_trie_add`: step to the child, created if it is missing. */
    method StepDown(ghost p: string, node: TrieNode, d: nat) returns (child: TrieNode)
      requires Valid() && p in nodes && nodes[p] == node && d < 10
      modifies this`nodes, this`Repr, this`view, node`child
      ensures Valid() && fresh(Repr - old(Repr)) && old(Repr) <= Repr
      ensures p + [Digit(d)] in nodes && nodes[p + [Digit(d)]] == child
      ensures view == old(view).(paths := old(view).paths + {p + [Digit(d)]})
    {
      ChildOf(p, d);
      hide NodesValid, Separate, Linked, Trie.Valid;
      if node.child[d] == null {
        child := CreateChild(p, node, d);
      } else {
        child := node.child[d];
        assert view.paths + {p + [Digit(d)]} == view.paths;
      }
    }

    /** `route_trie_add`: 1 is reported exactly for a prefix of digits. */
    method Insert(prefix: string, r: Route) returns (ok: bool)
      requires Valid()
      modifies Repr
      ensures Valid() && fresh(Repr - old(Repr)) && old(Repr) <= Repr
      ensures ok == AllDigits(prefix)
      ensures view == AddRoute(old(view), prefix, r)
    {
      hide Add, Trie.Valid, NodesValid, Separate, Linked, TenWide;
      ghost var t := view;
      var node := root;
      var k := 0;
      assert prefix[..0] == "";
      assert t.paths + PrefixesTo(prefix, 0) == t.paths;
      while k < |prefix|
        invariant Valid() && fresh(Repr - old(Repr)) && old(Repr) <= Repr
        invariant k <= DigitRun(prefix) && k <= |prefix|
        invariant prefix[..k] in nodes && nodes[prefix[..k]] == node
        invariant view == t.(paths := t.paths + PrefixesTo(prefix, k))
      {
        var i := prefix[k] as int - '0' as int;
        if 0 <= i <= 9 {
          assert prefix[..k] + [Digit(i)] == prefix[..k + 1];
          ChildOf(prefix[..k], i);
          node := StepDown(prefix[..k], node, i);
          PrefixesStep(prefix, k);
          k := k + 1;
        } else {
          return false;
        }
      }
      assert prefix[..k] == prefix;
      Store(prefix, node, r);
      return true;
    }

    /** `route_trie_find`: offer every route on the path of `key` to `results`. */
    method Lookup(key: string, results: RouteArray) returns (found: Size)
      requires Valid() && results.Valid() && {results, results.route} !! Repr
      modifies results`size, results.route
      ensures Valid() && view == old(view) && results.Valid()
      ensures (results.State(), found) == Find(view, key, old(results.State()))
    {
      ghost var t := view;
      var node := root;
      var k := 0;
      assert key[..0] == "";
      while true
        invariant Valid() && view == t && results.Valid()
        invariant k <= |key| && key[..k] in nodes && nodes[key[..k]] == node
        invariant FindFrom(t, key, k, results.State()) == Find(t, key, old(results.State()))
        decreases |key| - k
      {
        OfferAll(key[..k], node, results);
        if k == |key| {
          break;
        }
        var i := key[k] as int - '0' as int;
        if 0 <= i <= 9 {
          assert key[..k] + [Digit(i)] == key[..k + 1];
          ChildOf(key[..k], i);
          if node.child[i] == null {
            break;
          }
          node := node.child[i];
          k := k + 1;
        } else {
          return 0;
        }
      }
      return results.size;
    }

    /** Offer every visible route of one node to `results`. */
    method OfferAll(ghost p: string, node: TrieNode, results: RouteArray)
      requires Valid() && results.Valid() && {results, results.route} !! Repr
      requires p in nodes && nodes[p] == node
      modifies results`size, results.route
      ensures Valid() && view == old(view) && results.Valid()
      ensures results.State() == AddAll(old(results.State()), view.RoutesAt(p))
    {
      hide Add, Trie.Valid, Linked;
      if node.routes != null {
        ghost var routes := view.RoutesAt(p);
        ghost var before := results.State();
        assert routes[..0] == [];
        for i := 0 to node.routes.size
          invariant Valid() && view == old(view) && results.Valid()
          invariant node.routes != null && view.RoutesAt(p) == routes && node.routes.size == |routes|
          invariant results.State() == AddAll(before, routes[..i])
        {
          assert node.routes.route[i] == routes[i];
          AddAllStep(before, routes[..i], routes[i]);
          assert routes[..i] + [routes[i]] == routes[..i + 1];
          results.Insert(node.routes.route[i]);
        }
        assert routes[..|routes|] == routes;
      }
    }

    /** `route_trie_find_count`. */
    method FindCount(key: string) returns (count: nat)
      requires Valid()
      ensures count == Count(view, key)
    {
      hide Trie.Valid, Separate, NodesValid, TenWide, Linked;
      var node := root;
      var k := 0;
      count := 0;
      assert key[..0] == "";
      while true
        invariant k <= |key| && key[..k] in nodes && nodes[key[..k]] == node
        invariant CountFrom(view, key, k, count) == Count(view, key)
        decreases |key| - k
      {
        NodeFacts(key[..k]);
        if node.routes != null {
          count := count + node.routes.size;
        }
        if k == |key| {
          return;
        }
        var i := key[k] as int - '0' as int;
        if 0 <= i <= 9 {
          assert key[..k] + [Digit(i)] == key[..k + 1];
          ChildOf(key[..k], i);
          if node.child[i] == null {
            return;
          }
          node := node.child[i];
          k := k + 1;
        } else {
          return 0;
        }
      }
    }
  }
}
