/** The two budgeted walks over an accessibility tree: the tree that is reported, and the
    rectangles of the secure text fields that are masked. */
module UiTree {
  import opened Basics

  const MAX_TREE_DEPTH := 8
  const MAX_TREE_NODES := 500

  datatype Pair = Pair(x: real, y: real)

  datatype Info = Info(role: string, secure: bool, position: Option<Pair>, size: Option<Pair>)

  /** An element as the accessibility interface answers for it; unreadable children are none. */
  datatype Elem = Elem(info: Info, children: seq<Elem>)

  /** A reported node; `Truncated` is the `_truncated` placeholder. */
  datatype Node = Truncated | Node(info: Info, children: seq<Node>)

  type Listing = seq<(Info, nat)>

  // ---------------------------------------------------------------- preorder listings

  /** The elements at depths up to `limit`, in preorder, each with its depth. */
  function Preorder(e: Elem, depth: nat, limit: nat): Listing
    decreases e, 1
  {
    [(e.info, depth)] + (if depth < limit then PreorderAll(e.children, depth + 1, limit) else [])
  }

  function PreorderAll(es: seq<Elem>, depth: nat, limit: nat): Listing
    decreases es, 0
  {
    if es == [] then [] else Preorder(es[0], depth, limit) + PreorderAll(es[1..], depth, limit)
  }

  predicate Complete(n: Node)
    decreases n, 1
  {
    n.Node? && CompleteAll(n.children)
  }

  predicate CompleteAll(ns: seq<Node>)
    decreases ns, 0
  {
    ns == [] || (Complete(ns[0]) && CompleteAll(ns[1..]))
  }

  function Listed(n: Node, depth: nat): Listing
    requires Complete(n)
    decreases n, 1
  {
    [(n.info, depth)] + ListedAll(n.children, depth + 1)
  }

  function ListedAll(ns: seq<Node>, depth: nat): Listing
    requires CompleteAll(ns)
    decreases ns, 0
  {
    if ns == [] then [] else Listed(ns[0], depth) + ListedAll(ns[1..], depth)
  }

  function Take<T>(s: seq<T>, n: nat): seq<T> { if n <= |s| then s[..n] else s }

  lemma {:induction false} PreorderAllSnoc(es: seq<Elem>, e: Elem, depth: nat, limit: nat)
    ensures PreorderAll(es + [e], depth, limit) == PreorderAll(es, depth, limit) + Preorder(e, depth, limit)
    decreases |es|
  {
    if es == [] {
      assert [] + [e] == [e];
      assert [e][1..] == [];
      assert PreorderAll([e], depth, limit) == Preorder(e, depth, limit) + [];
    } else {
      assert (es + [e])[1..] == es[1..] + [e];
      PreorderAllSnoc(es[1..], e, depth, limit);
    }
  }

  lemma {:induction false} PreorderAllAppend(a: seq<Elem>, b: seq<Elem>, depth: nat, limit: nat)
    ensures PreorderAll(a + b, depth, limit) == PreorderAll(a, depth, limit) + PreorderAll(b, depth, limit)
    decreases |a|
  {
    if a == [] {
      assert a + b == b;
    } else {
      assert (a + b)[1..] == a[1..] + b;
      PreorderAllAppend(a[1..], b, depth, limit);
    }
  }

  lemma {:induction false} ListedAllSnoc(ns: seq<Node>, n: Node, depth: nat)
    requires CompleteAll(ns) && Complete(n)
    ensures CompleteAll(ns + [n])
    ensures ListedAll(ns + [n], depth) == ListedAll(ns, depth) + Listed(n, depth)
    decreases |ns|
  {
    if ns == [] {
      assert [] + [n] == [n];
      assert [n][1..] == [];
      assert ListedAll([n], depth) == Listed(n, depth) + [];
    } else {
      assert (ns + [n])[1..] == ns[1..] + [n];
      ListedAllSnoc(ns[1..], n, depth);
    }
  }

  /** Taking from a concatenation with a budget: first from the left, then from the right. */
  lemma TakeBoth<T>(a: seq<T>, b: seq<T>, n: nat)
    ensures n <= |a| ==> Take(a + b, n) == Take(a, n)
    ensures n > |a| ==> Take(a + b, n) == a + Take(b, n - |a|)
  {
  }

  // ---------------------------------------------------------------- the reported tree

  /** One element and what is below it, within the budget that `count` leaves: exactly the first
      elements of the preorder listing of the tree cut at the depth limit. */
  method BuildNode(elem: Elem, depth: nat, count: nat) returns (node: Node, count': nat)
    ensures count >= MAX_TREE_NODES ==> node == Truncated && count' == count
    ensures count < MAX_TREE_NODES && depth <= MAX_TREE_DEPTH ==>
              Complete(node) &&
              Listed(node, depth) == Take(Preorder(elem, depth, MAX_TREE_DEPTH), MAX_TREE_NODES - count) &&
              count' == count + |Listed(node, depth)|
    decreases elem
  {
    if count >= MAX_TREE_NODES { return Truncated, count; }
    count' := count + 1;
    var children: seq<Node> := [];
    ghost var shown: Listing := [];
    var k := 0;
    if depth < MAX_TREE_DEPTH {
      while k < |elem.children| && count' < MAX_TREE_NODES
        invariant k <= |elem.children| && CompleteAll(children) && ListedAll(children, depth + 1) == shown
        invariant shown == Take(Below(elem.children[..k], depth), MAX_TREE_NODES - count - 1)
        invariant count' == count + 1 + |shown|
      {
        ShowNext(elem.children, k, depth, count, count');
        var child, next := BuildNode(elem.children[k], depth + 1, count');
        ListedAllSnoc(children, child, depth + 1);
        shown := shown + Listed(child, depth + 1);
        children := children + [child];
        count' := next;
        k := k + 1;
      }
      ShownAll(elem, k, depth, count);
    } else if depth == MAX_TREE_DEPTH {
      ShownAll(elem, |elem.children|, depth, count);
    }
    node := Node(elem.info, children);
  }

  /** What the reported tree would have below an element at `depth` with an unlimited budget. */
  function Below(children: seq<Elem>, depth: nat): Listing {
    if depth < MAX_TREE_DEPTH then PreorderAll(children, depth + 1, MAX_TREE_DEPTH) else []
  }

  lemma ShowNext(children: seq<Elem>, k: nat, depth: nat, count: nat, count': nat)
    requires k < |children| && count < MAX_TREE_NODES && depth < MAX_TREE_DEPTH
    requires count' == count + 1 + |Take(Below(children[..k], depth), MAX_TREE_NODES - count - 1)|
    requires count' < MAX_TREE_NODES
    ensures Take(Below(children[..k + 1], depth), MAX_TREE_NODES - count - 1) ==
            Take(Below(children[..k], depth), MAX_TREE_NODES - count - 1) +
            Take(Preorder(children[k], depth + 1, MAX_TREE_DEPTH), MAX_TREE_NODES - count')
  {
    assert children[..k + 1] == children[..k] + [children[k]];
    PreorderAllSnoc(children[..k], children[k], depth + 1, MAX_TREE_DEPTH);
    TakeBoth(Below(children[..k], depth), Preorder(children[k], depth + 1, MAX_TREE_DEPTH), MAX_TREE_NODES - count - 1);
  }

  lemma ShownAll(elem: Elem, k: nat, depth: nat, count: nat)
    requires k <= |elem.children| && depth <= MAX_TREE_DEPTH && count < MAX_TREE_NODES
    requires k == |elem.children| || |Below(elem.children[..k], depth)| >= MAX_TREE_NODES - count - 1
    ensures Take(Preorder(elem, depth, MAX_TREE_DEPTH), MAX_TREE_NODES - count) ==
            [(elem.info, depth)] + Take(Below(elem.children[..k], depth), MAX_TREE_NODES - count - 1)
  {
    var budget := MAX_TREE_NODES - count - 1;
    if depth < MAX_TREE_DEPTH {
      var a, b := elem.children[..k], elem.children[k..];
      assert a + b == elem.children;
      PreorderAllAppend(a, b, depth + 1, MAX_TREE_DEPTH);
      TakeBoth(Below(a, depth), Below(b, depth), budget);
      if k == |elem.children| { assert a == elem.children; }
    }
    TakeBoth([(elem.info, depth)], Below(elem.children, depth), budget + 1);
  }

  /** The tree reported for a window. */
  method InspectTree(root: Elem) returns (node: Node)
    ensures Complete(node)
    ensures Listed(node, 0) == Take(Preorder(root, 0, MAX_TREE_DEPTH), MAX_TREE_NODES)
  {
    var count;
    node, count := BuildNode(root, 0, 0);
  }

  lemma {:induction false} ListedDepths(n: Node, depth: nat)
    requires Complete(n)
    ensures |Listed(n, depth)| >= 1 && Listed(n, depth)[0] == (n.info, depth)
    ensures forall i :: 1 <= i < |Listed(n, depth)| ==> Listed(n, depth)[i].1 > depth
    decreases n, 1
  {
    ListedAllDepths(n.children, depth + 1);
  }

  lemma {:induction false} ListedAllDepths(ns: seq<Node>, depth: nat)
    requires CompleteAll(ns)
    ensures forall i :: 0 <= i < |ListedAll(ns, depth)| ==> ListedAll(ns, depth)[i].1 >= depth
    ensures ns != [] ==> Complete(ns[0]) && ListedAll(ns, depth) != [] && ListedAll(ns, depth)[0] == (ns[0].info, depth)
    decreases ns, 0
  {
    if ns != [] {
      ListedDepths(ns[0], depth);
      ListedAllDepths(ns[1..], depth);
    }
  }

  /** A listing with depths determines the tree it lists, so the reported tree is unique. */
  lemma {:induction false} ListingDeterminesForest(a: seq<Node>, b: seq<Node>, depth: nat)
    requires CompleteAll(a) && CompleteAll(b) && ListedAll(a, depth) == ListedAll(b, depth)
    ensures a == b
    decreases a
  {
    ListedAllDepths(a, depth);
    ListedAllDepths(b, depth);
    if a != [] && b != [] {
      var la, lb := Listed(a[0], depth), Listed(b[0], depth);
      var ra, rb := ListedAll(a[1..], depth), ListedAll(b[1..], depth);
      ListedDepths(a[0], depth);
      ListedDepths(b[0], depth);
      ListedAllDepths(a[1..], depth);
      ListedAllDepths(b[1..], depth);
      FirstTreeEnds(la, ra, lb, rb, depth);
      assert la[1..] == ListedAll(a[0].children, depth + 1) && lb[1..] == ListedAll(b[0].children, depth + 1);
      ListingDeterminesForest(a[0].children, b[0].children, depth + 1);
      ListingDeterminesForest(a[1..], b[1..], depth);
      assert a == [a[0]] + a[1..] && b == [b[0]] + b[1..];
    }
  }

  lemma FirstTreeEnds(la: Listing, ra: Listing, lb: Listing, rb: Listing, depth: nat)
    requires la + ra == lb + rb && la != [] && lb != []
    requires forall i :: 1 <= i < |la| ==> la[i].1 > depth
    requires forall i :: 1 <= i < |lb| ==> lb[i].1 > depth
    requires ra != [] ==> ra[0].1 == depth
    requires rb != [] ==> rb[0].1 == depth
    ensures la == lb && ra == rb
  {
    assert |la| + |ra| == |lb| + |rb|;
    var i := if |la| < |lb| then |la| else |lb|;
    assert i < |la + ra| ==> (la + ra)[i] == (lb + rb)[i];
    assert |la| == |lb|;
    assert la == (la + ra)[..|la|] && lb == (lb + rb)[..|lb|];
    assert ra == (la + ra)[|la|..] && rb == (lb + rb)[|lb|..];
  }

  lemma ListingDeterminesTree(a: Node, b: Node, depth: nat)
    requires Complete(a) && Complete(b) && Listed(a, depth) == Listed(b, depth)
    ensures a == b
  {
    assert Listed(a, depth)[1..] == ListedAll(a.children, depth + 1);
    assert Listed(b, depth)[1..] == ListedAll(b.children, depth + 1);
    assert Listed(a, depth)[0] == (a.info, depth) && Listed(b, depth)[0] == (b.info, depth);
    ListingDeterminesForest(a.children, b.children, depth + 1);
  }

  // ---------------------------------------------------------------- the masked rectangles

  datatype Area = Area(position: Pair, size: Pair)

  function AreaOf(info: Info): seq<Area> {
    if info.secure && info.position.Some? && info.size.Some? then [Area(info.position.value, info.size.value)] else []
  }

  function Areas(list: Listing): seq<Area> {
    if list == [] then [] else AreaOf(list[0].0) + Areas(list[1..])
  }

  lemma {:induction false} AreasAppend(a: Listing, b: Listing)
    ensures Areas(a + b) == Areas(a) + Areas(b)
    decreases |a|
  {
    if a == [] {
      assert a + b == b;
    } else {
      assert (a + b)[1..] == a[1..] + b && (a + b)[0] == a[0];
      AreasAppend(a[1..], b);
      Associates(AreaOf(a[0].0), Areas(a[1..]), Areas(b));
    }
  }

  /** The areas are those of exactly the secure elements of a listing that have a position and a size,
      each at its place `at` in the listing, in the listing's order. */
  ghost predicate Collected(list: Listing, areas: seq<Area>, at: seq<nat>) {
    && |at| == |areas|
    && (forall j, k :: 0 <= j < k < |at| ==> at[j] < at[k])
    && (forall k :: 0 <= k < |at| ==> IsAreaOf(list, at[k], areas[k]))
    && (forall i :: 0 <= i < |list| && list[i].0.secure && list[i].0.position.Some? && list[i].0.size.Some? ==> i in at)
  }

  predicate IsAreaOf(list: Listing, i: nat, area: Area) {
    && i < |list| && list[i].0.secure
    && list[i].0.position == Some(area.position) && list[i].0.size == Some(area.size)
  }

  lemma {:induction false} AreasAreCollected(list: Listing) returns (at: seq<nat>)
    ensures Collected(list, Areas(list), at)
    decreases |list|
  {
    if list == [] { return []; }
    var n := |list| - 1;
    var init, last := list[..n], list[n];
    at := AreasAreCollected(init);
    assert list == init + [last];
    AreasAppend(init, [last]);
    var empty: Listing := [];
    assert [last][1..] == empty && AreaOf(last.0) + [] == AreaOf(last.0);
    assert forall k :: 0 <= k < |at| ==> IsAreaOf(list, at[k], Areas(init)[k]);
    if last.0.secure && last.0.position.Some? && last.0.size.Some? {
      assert IsAreaOf(list, n, AreaOf(last.0)[0]);
      at := at + [n];
      assert n == at[|at| - 1];
    }
    forall i | 0 <= i < |list| && list[i].0.secure && list[i].0.position.Some? && list[i].0.size.Some?
      ensures i in at
    {
      if i < n { assert init[i] == list[i]; }
    }
  }

  /** The elements this walk visits below and including `elem`: it stops one level earlier than
      the reported tree. */
  function Visited(elem: Elem, depth: nat, count: nat): Listing {
    if depth >= MAX_TREE_DEPTH || count >= MAX_TREE_NODES then []
    else Take(Preorder(elem, depth, MAX_TREE_DEPTH - 1), MAX_TREE_NODES - count)
  }

  method CollectOne(info: Info, areas: seq<Area>) returns (areas': seq<Area>)
    ensures areas' == areas + AreaOf(info)
  {
    areas' := areas;
    if info.secure {
      if info.position.Some? && info.size.Some? {
        areas' := areas' + [Area(info.position.value, info.size.value)];
      }
    }
  }

  method CollectSecure(elem: Elem, depth: nat, count: nat, areas: seq<Area>)
    returns (count': nat, areas': seq<Area>)
    ensures areas' == areas + Areas(Visited(elem, depth, count))
    ensures count' == count + |Visited(elem, depth, count)|
    decreases elem
  {
    count', areas' := count, areas;
    if count >= MAX_TREE_NODES || depth >= MAX_TREE_DEPTH {
      assert areas + [] == areas;
      return;
    }
    count' := count' + 1;
    areas' := CollectOne(elem.info, areas);
    ghost var visited := [(elem.info, depth)];
    AreasOfRoot(elem.info, depth);
    assert visited == VisitedSoFar(elem, 0, depth, count);
    var k := 0;
    while k < |elem.children| && count' < MAX_TREE_NODES
      invariant k <= |elem.children|
      invariant visited == VisitedSoFar(elem, k, depth, count)
      invariant count' == count + |visited|
      invariant areas' == areas + Areas(visited)
    {
      ghost var more := Visited(elem.children[k], depth + 1, count');
      VisitNext(elem, k, depth, count, count');
      MoreAreas(areas, visited, more);
      count', areas' := CollectSecure(elem.children[k], depth + 1, count', areas');
      visited := visited + more;
      k := k + 1;
    }
    VisitedAll(elem, k, depth, count);
  }

  lemma AreasOfRoot(info: Info, depth: nat)
    ensures Areas([(info, depth)]) == AreaOf(info)
  {
    assert [(info, depth)][1..] == [];
    assert AreaOf(info) + [] == AreaOf(info);
  }

  lemma MoreAreas(areas: seq<Area>, before: Listing, more: Listing)
    ensures areas + Areas(before) + Areas(more) == areas + Areas(before + more)
  {
    AreasAppend(before, more);
  }

  /** What the walk would visit below an element at `depth` with an unlimited budget. */
  function VisitedBelow(children: seq<Elem>, depth: nat): Listing {
    if depth + 1 < MAX_TREE_DEPTH then PreorderAll(children, depth + 1, MAX_TREE_DEPTH - 1) else []
  }

  /** The element and what the walk visits below its first `k` children. */
  function VisitedSoFar(elem: Elem, k: nat, depth: nat, count: nat): Listing
    requires k <= |elem.children| && count < MAX_TREE_NODES
  {
    [(elem.info, depth)] + Take(VisitedBelow(elem.children[..k], depth), MAX_TREE_NODES - count - 1)
  }

  lemma VisitNext(elem: Elem, k: nat, depth: nat, count: nat, count': nat)
    requires k < |elem.children| && count < MAX_TREE_NODES
    requires count' == count + |VisitedSoFar(elem, k, depth, count)| && count' < MAX_TREE_NODES
    ensures VisitedSoFar(elem, k + 1, depth, count) ==
            VisitedSoFar(elem, k, depth, count) + Visited(elem.children[k], depth + 1, count')
  {
    var root, children := [(elem.info, depth)], elem.children;
    var budget := MAX_TREE_NODES - count - 1;
    var before, more := VisitedBelow(children[..k], depth), Visited(children[k], depth + 1, count');
    BelowGrows(children, k, depth);
    if depth + 1 < MAX_TREE_DEPTH {
      TakeBoth(before, Preorder(children[k], depth + 1, MAX_TREE_DEPTH - 1), budget);
    }
    assert Take(VisitedBelow(children[..k + 1], depth), budget) == Take(before, budget) + more;
    Associates(root, Take(before, budget), more);
  }

  lemma BelowGrows(children: seq<Elem>, k: nat, depth: nat)
    requires k < |children|
    ensures VisitedBelow(children[..k + 1], depth) ==
            VisitedBelow(children[..k], depth) +
            (if depth + 1 < MAX_TREE_DEPTH then Preorder(children[k], depth + 1, MAX_TREE_DEPTH - 1) else [])
  {
    assert children[..k + 1] == children[..k] + [children[k]];
    PreorderAllSnoc(children[..k], children[k], depth + 1, MAX_TREE_DEPTH - 1);
  }

  lemma VisitedAll(elem: Elem, k: nat, depth: nat, count: nat)
    requires k <= |elem.children| && depth < MAX_TREE_DEPTH && count < MAX_TREE_NODES
    requires k == |elem.children| || count + |VisitedSoFar(elem, k, depth, count)| >= MAX_TREE_NODES
    ensures Visited(elem, depth, count) == VisitedSoFar(elem, k, depth, count)
  {
    var budget := MAX_TREE_NODES - count - 1;
    var root := [(elem.info, depth)];
    if depth + 1 < MAX_TREE_DEPTH {
      var a, b := elem.children[..k], elem.children[k..];
      assert a + b == elem.children;
      PreorderAllAppend(a, b, depth + 1, MAX_TREE_DEPTH - 1);
      TakeBoth(VisitedBelow(a, depth), VisitedBelow(b, depth), budget);
      if k == |elem.children| { assert a == elem.children; }
    }
    TakeBoth(root, VisitedBelow(elem.children, depth), budget + 1);
  }

  /** The rectangles masked for a window: those of the secure fields with position and size
      among the first 500 elements, in preorder, at depths 0 to 7. */
  method CollectSecureAreas(root: Elem) returns (areas: seq<Area>, ghost at: seq<nat>)
    ensures areas == Areas(Take(Preorder(root, 0, MAX_TREE_DEPTH - 1), MAX_TREE_NODES))
    ensures Collected(Take(Preorder(root, 0, MAX_TREE_DEPTH - 1), MAX_TREE_NODES), areas, at)
  {
    var count;
    count, areas := CollectSecure(root, 0, 0, []);
    assert [] + areas == areas;
    at := AreasAreCollected(Take(Preorder(root, 0, MAX_TREE_DEPTH - 1), MAX_TREE_NODES));
  }

  /** An area is returned exactly if it is that of a secure element on the way. */
  lemma CollectedExactly(list: Listing, area: Area)
    ensures area in Areas(list) <==>
              exists x :: x in list && x.0.secure && x.0.position == Some(area.position) && x.0.size == Some(area.size)
  {
    var areas := Areas(list);
    var at := AreasAreCollected(list);
    if area in areas {
      var k :| 0 <= k < |areas| && areas[k] == area;
      assert list[at[k]] in list;
    }
    if x :| x in list && x.0.secure && x.0.position == Some(area.position) && x.0.size == Some(area.size) {
      var i :| 0 <= i < |list| && list[i] == x;
      assert i in at;
      var k :| 0 <= k < |at| && at[k] == i;
      assert areas[k] == area;
    }
  }

  // ---------------------------------------------------------------- what is shown but not masked

  /** A listing without its entries deeper than `limit`. */
  function Shallow(list: Listing, limit: nat): Listing {
    if list == [] then [] else (if list[0].1 <= limit then [list[0]] else []) + Shallow(list[1..], limit)
  }

  lemma {:induction false} ShallowAppend(a: Listing, b: Listing, limit: nat)
    ensures Shallow(a + b, limit) == Shallow(a, limit) + Shallow(b, limit)
    decreases |a|
  {
    if a == [] {
      assert a + b == b;
    } else {
      assert (a + b)[1..] == a[1..] + b;
      ShallowAppend(a[1..], b, limit);
      Associates(if a[0].1 <= limit then [a[0]] else [], Shallow(a[1..], limit), Shallow(b, limit));
    }
  }

  lemma {:induction false} CutDeeper(e: Elem, depth: nat, limit: nat)
    requires depth <= limit
    ensures Shallow(Preorder(e, depth, limit + 1), limit) == Preorder(e, depth, limit)
    decreases e, 1
  {
    ShallowAppend([(e.info, depth)], PreorderAll(e.children, depth + 1, limit + 1), limit);
    assert Shallow([(e.info, depth)], limit) == [(e.info, depth)];
    CutDeeperAll(e.children, depth + 1, limit);
    assert [(e.info, depth)] + [] == [(e.info, depth)];
  }

  lemma {:induction false} CutDeeperAll(es: seq<Elem>, depth: nat, limit: nat)
    requires depth <= limit + 1
    ensures Shallow(PreorderAll(es, depth, limit + 1), limit) ==
            if depth <= limit then PreorderAll(es, depth, limit) else []
    decreases es, 0
  {
    if es != [] {
      ShallowAppend(Preorder(es[0], depth, limit + 1), PreorderAll(es[1..], depth, limit + 1), limit);
      CutDeeperAll(es[1..], depth, limit);
      if depth <= limit {
        CutDeeper(es[0], depth, limit);
      } else {
        assert Preorder(es[0], depth, limit + 1) == [(es[0].info, depth)] + [];
        assert Shallow([(es[0].info, depth)], limit) == [];
      }
    }
  }

  lemma {:induction false} ShallowShrinks(list: Listing, limit: nat)
    ensures |Shallow(list, limit)| <= |list|
    ensures forall x :: x in Shallow(list, limit) <==> x in list && x.1 <= limit
    decreases |list|
  {
    if list != [] { ShallowShrinks(list[1..], limit); }
  }

  /** Of what the reported tree shows, the walk for masking visits everything down to depth 7, one
      by one and in the same order, and nothing at depth 8. */
  lemma ShownButNotVisited(root: Elem)
    ensures var shown := Take(Preorder(root, 0, MAX_TREE_DEPTH), MAX_TREE_NODES);
            var visited := Take(Preorder(root, 0, MAX_TREE_DEPTH - 1), MAX_TREE_NODES);
            && Shallow(shown, MAX_TREE_DEPTH - 1) <= visited
            && (forall x :: x in visited ==> x.1 <= MAX_TREE_DEPTH - 1)
            && (|shown| < MAX_TREE_NODES ==> Shallow(shown, MAX_TREE_DEPTH - 1) == visited)
  {
    var limit := MAX_TREE_DEPTH - 1;
    var whole := Preorder(root, 0, MAX_TREE_DEPTH);
    CutDeeper(root, 0, limit);
    var shown := Take(whole, MAX_TREE_NODES);
    var back := whole[|shown|..];
    assert whole == shown + back;
    ShallowAppend(shown, back, limit);
    ShallowShrinks(shown, limit);
    ShallowShrinks(whole, limit);
    TakeBoth(Shallow(shown, limit), Shallow(back, limit), MAX_TREE_NODES);
    forall x | x in Take(Shallow(whole, limit), MAX_TREE_NODES) ensures x.1 <= limit {
      assert x in Shallow(whole, limit);
    }
  }

  /** So the promise that everything maskable on show is visited holds exactly if none of it stands at
      depth 8. */
  lemma MaskedExactly(root: Elem)
    ensures var shown := Take(Preorder(root, 0, MAX_TREE_DEPTH), MAX_TREE_NODES);
            var visited := Take(Preorder(root, 0, MAX_TREE_DEPTH - 1), MAX_TREE_NODES);
            (forall x :: x in shown && x.0.secure && x.0.position.Some? && x.0.size.Some? ==> x in visited) <==>
            (forall x :: x in shown && x.0.secure && x.0.position.Some? && x.0.size.Some? ==> x.1 != MAX_TREE_DEPTH)
  {
    var shown := Take(Preorder(root, 0, MAX_TREE_DEPTH), MAX_TREE_NODES);
    ShownButNotVisited(root);
    ShallowShrinks(shown, MAX_TREE_DEPTH - 1);
    CutDeeper(root, 0, MAX_TREE_DEPTH);
    ShallowShrinks(Preorder(root, 0, MAX_TREE_DEPTH + 1), MAX_TREE_DEPTH);
    forall x | x in shown ensures x.1 <= MAX_TREE_DEPTH { assert x in Preorder(root, 0, MAX_TREE_DEPTH); }
  }

  function Chain(n: nat, leaf: Elem): Elem {
    if n == 0 then leaf else Elem(Info("AXGroup", false, None, None), [Chain(n - 1, leaf)])
  }

  lemma {:induction false} ChainVisited(n: nat, leaf: Elem, depth: nat, limit: nat)
    requires depth <= limit < depth + n
    ensures forall x :: x in Preorder(Chain(n, leaf), depth, limit) ==> !x.0.secure
    decreases n
  {
    var c := Chain(n, leaf);
    assert c.children == [Chain(n - 1, leaf)] && c.children[1..] == [];
    if depth < limit {
      ChainVisited(n - 1, leaf, depth + 1, limit);
      assert PreorderAll(c.children, depth + 1, limit) == Preorder(Chain(n - 1, leaf), depth + 1, limit) + [];
      assert PreorderAll(c.children, depth + 1, limit) == Preorder(Chain(n - 1, leaf), depth + 1, limit);
    } else {
      assert Preorder(c, depth, limit) == [(c.info, depth)];
    }
  }

  lemma {:induction false} ChainShown(n: nat, leaf: Elem, depth: nat, limit: nat)
    requires depth + n <= limit
    ensures (leaf.info, depth + n) in Preorder(Chain(n, leaf), depth, limit)
    decreases n
  {
    var c := Chain(n, leaf);
    if n > 0 {
      ChainShown(n - 1, leaf, depth + 1, limit);
      assert c.children == [Chain(n - 1, leaf)];
    } else {
      assert Preorder(c, depth, limit)[0] == (leaf.info, depth);
    }
  }

  /** A password field at depth 8 appears in the tree that is cut at depth 8, and no rectangle is
      collected for it. */
  lemma DeepPasswordIsNotMasked(info: Info)
    requires info.secure && info.position.Some? && info.size.Some?
    ensures var root := Chain(MAX_TREE_DEPTH, Elem(info, []));
            && (info, MAX_TREE_DEPTH) in Preorder(root, 0, MAX_TREE_DEPTH)
            && (forall x :: x in Preorder(root, 0, MAX_TREE_DEPTH - 1) ==> !x.0.secure)
            && Areas(Take(Preorder(root, 0, MAX_TREE_DEPTH - 1), MAX_TREE_NODES)) == []
  {
    var root := Chain(MAX_TREE_DEPTH, Elem(info, []));
    ChainShown(MAX_TREE_DEPTH, Elem(info, []), 0, MAX_TREE_DEPTH);
    ChainVisited(MAX_TREE_DEPTH, Elem(info, []), 0, MAX_TREE_DEPTH - 1);
    var visited := Take(Preorder(root, 0, MAX_TREE_DEPTH - 1), MAX_TREE_NODES);
    if Areas(visited) != [] {
      CollectedExactly(visited, Areas(visited)[0]);
      assert false;
    }
  }
}
