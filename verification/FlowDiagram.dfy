/** The flow diagram of cmd/diagram.go: a breadth-first walk of the call graph bounded in
    depth and fanout, the trim to the most central nodes, and the filter after it. */
module FlowDiagram {
  import opened Ordering
  import opened SymbolIds

  type Graph = map<Id, seq<Id>>
  type Rings = seq<set<Id>>
  type Edge = (Id, Id)

  /** graphmetrics.Graph.OutEdges: a fixed list of callees per node. */
  function OutEdges(g: Graph, n: Id): seq<Id> { if n in g then g[n] else [] }

  /** The callees the walk follows from n: the first fanout of them, all when fanout <= 0. */
  function Fan(g: Graph, n: Id, fanout: int): seq<Id> {
    var out := OutEdges(g, n);
    if fanout > 0 && |out| > fanout then out[..fanout] else out
  }

  /** They are the first of its callees, and none is left out without a fanout or below it. */
  lemma {:induction false} FanIsFirst(g: Graph, n: Id, fanout: int)
    ensures Fan(g, n, fanout) <= OutEdges(g, n) && (fanout > 0 ==> |Fan(g, n, fanout)| <= fanout)
    ensures fanout <= 0 || |OutEdges(g, n)| <= fanout ==> Fan(g, n, fanout) == OutEdges(g, n)
    ensures 0 < fanout < |OutEdges(g, n)| ==> |Fan(g, n, fanout)| == fanout
    ensures n in g ==> OutEdges(g, n) == g[n]
  {
  }

  // ---------- distance in the truncated graph ----------

  ghost function Callees(g: Graph, fanout: int, near: set<Id>): set<Id> {
    set n, c | n in near && c in Fan(g, n, fanout) :: c
  }

  /** The nodes at most d calls away from root. */
  ghost function Within(g: Graph, root: Id, fanout: int, d: nat): set<Id> {
    if d == 0 then {root}
    else Within(g, root, fanout, d - 1) + Callees(g, fanout, Within(g, root, fanout, d - 1))
  }

  ghost predicate CallPath(g: Graph, root: Id, fanout: int, p: seq<Id>) {
    |p| > 0 && p[0] == root && forall i, j :: 0 <= i < j < |p| && j == i + 1 ==> p[j] in Fan(g, p[i], fanout)
  }

  /** Within says what it should: n is in it exactly if some path of at most d calls leads there. */
  lemma {:induction false} WithinIsPathLength(g: Graph, root: Id, fanout: int, d: nat, n: Id)
    ensures n in Within(g, root, fanout, d) <==>
            exists p :: CallPath(g, root, fanout, p) && p[|p| - 1] == n && |p| - 1 <= d
  {
    if n in Within(g, root, fanout, d) {
      var p := PathTo(g, root, fanout, d, n);
    }
    forall p | CallPath(g, root, fanout, p) && p[|p| - 1] == n && |p| - 1 <= d
      ensures n in Within(g, root, fanout, d)
    {
      PathStaysWithin(g, root, fanout, d, p);
    }
  }

  lemma {:induction false} PathTo(g: Graph, root: Id, fanout: int, d: nat, n: Id) returns (p: seq<Id>)
    requires n in Within(g, root, fanout, d)
    ensures CallPath(g, root, fanout, p) && |p| > 0 && p[|p| - 1] == n && |p| - 1 <= d
  {
    hide CallPath, Callees, Fan;
    if d == 0 {
      p := [root];
      RootPath(g, root, fanout);
    } else if n in Within(g, root, fanout, d - 1) {
      p := PathTo(g, root, fanout, d - 1, n);
    } else {
      var m := CallerOf(g, fanout, Within(g, root, fanout, d - 1), n);
      p := PathTo(g, root, fanout, d - 1, m);
      PathExtends(g, root, fanout, p, n);
      p := p + [n];
    }
  }

  lemma {:induction false} RootPath(g: Graph, root: Id, fanout: int)
    ensures CallPath(g, root, fanout, [root])
  {
  }

  lemma {:induction false} CallerOf(g: Graph, fanout: int, near: set<Id>, n: Id) returns (m: Id)
    requires n in Callees(g, fanout, near)
    ensures m in near && n in Fan(g, m, fanout)
  {
    m :| m in near && n in Fan(g, m, fanout);
  }

  lemma {:induction false} PathExtends(g: Graph, root: Id, fanout: int, p: seq<Id>, n: Id)
    requires CallPath(g, root, fanout, p) && n in Fan(g, p[|p| - 1], fanout)
    ensures CallPath(g, root, fanout, p + [n])
  {
  }

  lemma {:induction false} PathStaysWithin(g: Graph, root: Id, fanout: int, d: nat, p: seq<Id>)
    requires CallPath(g, root, fanout, p) && |p| - 1 <= d
    ensures p[|p| - 1] in Within(g, root, fanout, d)
    decreases d
  {
    if |p| - 1 < d {
      PathStaysWithin(g, root, fanout, d - 1, p);
    } else if d > 0 {
      PathStaysWithin(g, root, fanout, d - 1, p[..|p| - 1]);
    }
  }

  lemma {:induction false} WithinMonotone(g: Graph, root: Id, fanout: int, d: nat, e: nat)
    requires d <= e
    ensures Within(g, root, fanout, d) <= Within(g, root, fanout, e)
  {
    if d < e { WithinMonotone(g, root, fanout, d, e - 1); }
  }

  /** With a fanout the walk meets at most 1 + fanout + ... + fanout^d nodes. */
  function MostNodes(fanout: nat, d: nat): nat { if d == 0 then 1 else 1 + fanout * MostNodes(fanout, d - 1) }

  lemma {:induction false} WithinBounded(g: Graph, root: Id, fanout: nat, d: nat)
    requires fanout > 0
    ensures |Within(g, root, fanout, d)| <= MostNodes(fanout, d)
  {
    if d > 0 {
      var near := Within(g, root, fanout, d - 1);
      WithinBounded(g, root, fanout, d - 1);
      WithinFromCallees(g, root, fanout, d);
      CalleesBounded(g, fanout, near);
      hide Callees, Within, MostNodes;
      TimesOrder(fanout, |near|, MostNodes(fanout, d - 1));
      WithOne(root, Callees(g, fanout, near));
      assert MostNodes(fanout, d) == 1 + fanout * MostNodes(fanout, d - 1) by { MostNext(fanout, d); }
    }
  }

  lemma {:induction false} TimesOrder(f: nat, a: nat, b: nat)
    requires a <= b
    ensures f * a <= f * b
  {
  }

  lemma {:induction false} WithOne(x: Id, s: set<Id>)
    ensures |{x} + s| <= 1 + |s|
  {
  }

  lemma {:induction false} MostNext(fanout: nat, d: nat)
    requires d > 0
    ensures MostNodes(fanout, d) == 1 + fanout * MostNodes(fanout, d - 1)
  {
  }

  lemma {:induction false} WithinFromCallees(g: Graph, root: Id, fanout: int, d: nat)
    requires d > 0
    ensures Within(g, root, fanout, d) == {root} + Callees(g, fanout, Within(g, root, fanout, d - 1))
  {
    if d > 1 {
      WithinFromCallees(g, root, fanout, d - 1);
      WithinMonotone(g, root, fanout, d - 2, d - 1);
      hide Fan;
    }
  }

  lemma {:induction false} CalleesBounded(g: Graph, fanout: nat, near: set<Id>)
    requires fanout > 0
    ensures |Callees(g, fanout, near)| <= fanout * |near|
  {
    if near == {} {
      assert Callees(g, fanout, near) == {};
    } else {
      var n :| n in near;
      var rest := near - {n};
      CalleesBounded(g, fanout, rest);
      CalleesSplit(g, fanout, near, n);
      FanIsFirst(g, n, fanout);
      ElementsCount(Fan(g, n, fanout));
      assert |near| == |rest| + 1;
      hide *;
      UnionCount(Callees(g, fanout, rest), Elements(Fan(g, n, fanout)));
      OneMoreTimes(fanout, |rest|);
    }
  }

  lemma {:induction false} CalleesSplit(g: Graph, fanout: nat, near: set<Id>, n: Id)
    requires n in near
    ensures Callees(g, fanout, near) == Callees(g, fanout, near - {n}) + Elements(Fan(g, n, fanout))
  {
    hide Fan;
  }

  lemma {:induction false} UnionCount(a: set<Id>, b: set<Id>)
    ensures |a + b| <= |a| + |b|
  {
  }

  lemma {:induction false} OneMoreTimes(f: nat, n: nat)
    ensures f * (n + 1) == f * n + f
  {
  }

  lemma {:induction false} ElementsCount(s: seq<Id>)
    ensures |Elements(s)| <= |s|
  {
    if |s| > 0 {
      var n := |s| - 1;
      ElementsCount(s[..n]);
      PrefixElements(s, n);
      assert s[..n + 1] == s;
    }
  }

  /** The distance rings: what is within 0, 1, ... limit calls of root. */
  ghost function RingsOf(g: Graph, root: Id, fanout: int, limit: nat): (rings: Rings)
    ensures |rings| == limit + 1
  {
    seq(limit + 1, d requires 0 <= d <= limit => Within(g, root, fanout, d))
  }

  /** All the walk needs to know of the rings. */
  ghost predicate AreRings(rings: Rings, g: Graph, root: Id, fanout: int) {
    && |rings| > 0 && rings[0] == {root}
    && (forall d, e :: 0 <= d < e < |rings| && e == d + 1 ==> rings[e] == rings[d] + Callees(g, fanout, rings[d]))
    && (forall d, e :: 0 <= d <= e < |rings| ==> rings[d] <= rings[e])
  }

  /** rings are those of g; what follows from it, AreRings, only the lemmas look at. */
  ghost predicate IsRings(rings: Rings, g: Graph, root: Id, fanout: int) {
    |rings| > 0 && rings == RingsOf(g, root, fanout, |rings| - 1)
  }

  lemma {:induction false} RingsAreRings(g: Graph, root: Id, fanout: int, limit: nat)
    ensures AreRings(RingsOf(g, root, fanout, limit), g, root, fanout)
  {
    var rings := RingsOf(g, root, fanout, limit);
    forall d, e | 0 <= d <= e < |rings| ensures rings[d] <= rings[e] {
      WithinMonotone(g, root, fanout, d, e);
    }
  }

  // ---------- the walk ----------

  datatype Item = Item(id: Id, depth: nat)

  ghost function Ids(items: seq<Item>): set<Id> { set it <- items :: it.id }

  /** The item's depth is its node's distance from root. */
  ghost predicate AtDistance(rings: Rings, it: Item) {
    && it.depth < |rings| && it.id in rings[it.depth]
    && (it.depth > 0 ==> it.id !in rings[it.depth - 1])
  }

  /** The items enqueued so far: each node once and at its distance, nearer ones first. */
  ghost predicate Ordered(rings: Rings, root: Id, all: seq<Item>) {
    && |all| > 0 && all[0] == Item(root, 0)
    && (forall i, j :: 0 <= i < j < |all| ==> all[i].id != all[j].id && all[i].depth <= all[j].depth)
    && (forall i :: 0 <= i < |all| ==> AtDistance(rings, all[i]))
  }

  ghost predicate Expanded(g: Graph, fanout: int, limit: nat, it: Item, visited: set<Id>) {
    it.depth < limit ==> forall c <- Fan(g, it.id, fanout) :: c in visited
  }

  /** The first n items have been expanded: all their callees are visited. */
  ghost predicate AllExpanded(g: Graph, fanout: int, limit: nat, all: seq<Item>, n: nat, visited: set<Id>)
    requires n <= |all|
  {
    forall i :: 0 <= i < n ==> Expanded(g, fanout, limit, all[i], visited)
  }

  lemma {:induction false} CloserThan(rings: Rings, g: Graph, root: Id, fanout: int, it: Item, k: nat)
    requires AreRings(rings, g, root, fanout) && AtDistance(rings, it) && 0 < k <= |rings|
    ensures it.id in rings[k - 1] <==> it.depth < k
  {
  }

  /** Once every item closer than k is among the n expanded, everything within k is visited. */
  lemma {:induction false} NearIsVisited(rings: Rings, g: Graph, root: Id, fanout: int, all: seq<Item>, n: nat, k: nat)
    requires AreRings(rings, g, root, fanout) && Ordered(rings, root, all) && k < |rings|
    requires n <= |all| && AllExpanded(g, fanout, |rings| - 1, all, n, Ids(all))
    requires forall i :: n <= i < |all| ==> k <= all[i].depth
    ensures rings[k] <= Ids(all)
    decreases k
  {
    if k == 0 {
      assert all[0] in all;
    } else {
      NearIsVisited(rings, g, root, fanout, all, n, k - 1);
      forall m, c | m in rings[k - 1] && c in Fan(g, m, fanout) ensures c in Ids(all) {
        var i :| 0 <= i < |all| && all[i].id == m;
        CloserThan(rings, g, root, fanout, all[i], k);
      }
    }
  }

  lemma {:induction false} VisitedIsNear(rings: Rings, g: Graph, root: Id, fanout: int, all: seq<Item>)
    requires AreRings(rings, g, root, fanout) && Ordered(rings, root, all)
    ensures Ids(all) <= rings[|rings| - 1]
    ensures |all| <= |rings[|rings| - 1]|
  {
    DistinctIds(all);
    SubsetCount(Ids(all), rings[|rings| - 1]);
  }

  lemma {:induction false} DistinctIds(all: seq<Item>)
    requires forall i, j :: 0 <= i < j < |all| ==> all[i].id != all[j].id
    ensures |Ids(all)| == |all|
  {
    if |all| > 0 {
      var front, last := all[..|all| - 1], all[|all| - 1];
      DistinctIds(front);
      assert Ids(all) == Ids(front) + {last.id};
    }
  }

  function NodeEdges(n: Id, callees: seq<Id>): seq<Edge> {
    seq(|callees|, i requires 0 <= i < |callees| => (n, callees[i]))
  }

  /** The edges of the expanded items, in the order they were expanded. */
  function EdgesOf(g: Graph, fanout: int, depth: int, items: seq<Item>): seq<Edge> {
    if |items| == 0 then []
    else
      var last := items[|items| - 1];
      EdgesOf(g, fanout, depth, items[..|items| - 1])
      + if last.depth < depth then NodeEdges(last.id, Fan(g, last.id, fanout)) else []
  }

  lemma {:induction false} EdgesPush(g: Graph, fanout: int, depth: int, items: seq<Item>, it: Item)
    ensures EdgesOf(g, fanout, depth, items + [it]) ==
            EdgesOf(g, fanout, depth, items) + if it.depth < depth then NodeEdges(it.id, Fan(g, it.id, fanout)) else []
  {
    assert (items + [it])[..|items|] == items;
  }

  ghost predicate Between(all: seq<Item>, n: nat, depth: nat) {
    forall i :: n <= i < |all| ==> depth <= all[i].depth <= depth + 1
  }

  lemma {:induction false} NextCallee(n: Id, callees: seq<Id>, k: nat)
    requires k < |callees|
    ensures NodeEdges(n, callees[..k + 1]) == NodeEdges(n, callees[..k]) + [(n, callees[k])]
    ensures Elements(callees[..k + 1]) == Elements(callees[..k]) + {callees[k]}
  {
    assert callees[..k + 1] == callees[..k] + [callees[k]];
  }

  /** The walk so far: every node met is in all, the first n of which left the queue. */
  ghost predicate Walking(rings: Rings, g: Graph, root: Id, fanout: int, all: seq<Item>, n: nat, visited: set<Id>) {
    && n <= |all| && Ordered(rings, root, all) && visited == Ids(all)
    && AllExpanded(g, fanout, |rings| - 1, all, n, visited)
  }

  lemma {:induction false} OrderedPush(rings: Rings, root: Id, all: seq<Item>, n: nat, it: Item)
    requires Ordered(rings, root, all) && AtDistance(rings, it)
    requires n < |all| && Between(all, n, all[n].depth) && it.depth == all[n].depth + 1
    requires forall i :: 0 <= i < |all| ==> all[i].id != it.id
    ensures Ordered(rings, root, all + [it]) && Ids(all + [it]) == Ids(all) + {it.id}
    ensures Between(all + [it], n, all[n].depth)
  {
    var more := all + [it];
    forall i, j | 0 <= i < j < |more| ensures more[i].id != more[j].id && more[i].depth <= more[j].depth {
      if j < |all| { assert all[i].id != all[j].id; }
      if i < n { assert all[i].depth <= all[n].depth; }
    }
  }

  lemma {:induction false} RingStep(rings: Rings, g: Graph, root: Id, fanout: int, d: nat)
    requires IsRings(rings, g, root, fanout) && d + 1 < |rings|
    ensures rings[d + 1] == rings[d] + Callees(g, fanout, rings[d])
  {
    hide Callees;
    assert rings[d] == Within(g, root, fanout, d) && rings[d + 1] == Within(g, root, fanout, d + 1);
  }

  lemma {:induction false} NextRing(rings: Rings, g: Graph, root: Id, fanout: int, cur: Item, c: Id)
    requires IsRings(rings, g, root, fanout) && AtDistance(rings, cur) && cur.depth < |rings| - 1
    requires c in Fan(g, cur.id, fanout) && c !in rings[cur.depth]
    ensures AtDistance(rings, Item(c, cur.depth + 1))
  {
    hide IsRings, RingsOf, Within;
    RingStep(rings, g, root, fanout, cur.depth);
    assert c in Callees(g, fanout, rings[cur.depth]);
  }

  lemma {:induction false} ExpandedGrows(g: Graph, fanout: int, limit: nat, all: seq<Item>, n: nat, visited: set<Id>,
      it: Item)
    requires n <= |all| && AllExpanded(g, fanout, limit, all, n, visited)
    ensures AllExpanded(g, fanout, limit, all + [it], n, visited + {it.id})
  {
    forall i | 0 <= i < n ensures Expanded(g, fanout, limit, (all + [it])[i], visited + {it.id}) {
      assert Expanded(g, fanout, limit, all[i], visited);
    }
  }

  lemma {:induction false} TakeFirst(rings: Rings, g: Graph, root: Id, fanout: int, all: seq<Item>, n: nat,
      visited: set<Id>, base: nat)
    requires IsRings(rings, g, root, fanout) && Walking(rings, g, root, fanout, all, n, visited)
    requires n < |all| && Between(all, n, base)
    ensures all[n].depth < |rings| && rings[all[n].depth] <= visited
    ensures Between(all, n + 1, all[n].depth)
    ensures n < |rings[|rings| - 1]|
  {
    RingsAreRings(g, root, fanout, |rings| - 1);
    NearIsVisited(rings, g, root, fanout, all, n, all[n].depth);
    VisitedIsNear(rings, g, root, fanout, all);
  }

  lemma {:induction false} WalkStart(rings: Rings, g: Graph, root: Id, fanout: int)
    requires IsRings(rings, g, root, fanout)
    ensures Walking(rings, g, root, fanout, [Item(root, 0)], 0, {root})
  {
    RingsAreRings(g, root, fanout, |rings| - 1);
  }

  lemma {:induction false} WalkDone(rings: Rings, g: Graph, root: Id, fanout: int, all: seq<Item>, visited: set<Id>)
    requires IsRings(rings, g, root, fanout) && Walking(rings, g, root, fanout, all, |all|, visited)
    ensures visited == rings[|rings| - 1]
  {
    RingsAreRings(g, root, fanout, |rings| - 1);
    NearIsVisited(rings, g, root, fanout, all, |all|, |rings| - 1);
    VisitedIsNear(rings, g, root, fanout, all);
  }

  /** A callee of the item at n that was not met before joins the queue. */
  lemma {:induction false} Enqueue(rings: Rings, g: Graph, root: Id, fanout: int, all: seq<Item>, n: nat,
      visited: set<Id>, c: Id)
    requires IsRings(rings, g, root, fanout) && Walking(rings, g, root, fanout, all, n, visited)
    requires n < |all| && all[n].depth < |rings| - 1 && c in Fan(g, all[n].id, fanout) && c !in visited
    requires rings[all[n].depth] <= visited && Between(all, n, all[n].depth)
    ensures var it := Item(c, all[n].depth + 1);
            Walking(rings, g, root, fanout, all + [it], n, visited + {c}) && Between(all + [it], n, all[n].depth)
  {
    hide IsRings, Fan;
    var it := Item(c, all[n].depth + 1);
    NextRing(rings, g, root, fanout, all[n], c);
    assert forall i :: 0 <= i < |all| ==> all[i].id in visited;
    OrderedPush(rings, root, all, n, it);
    ExpandedGrows(g, fanout, |rings| - 1, all, n, visited, it);
  }

  /** The inner loop of bfsCallees: follow each callee of the item that left the queue. */
  method Expand(ghost rings: Rings, ghost g: Graph, ghost root: Id, ghost fanout: int, ghost all0: seq<Item>,
      ghost n: nat,
                cur: Item, callees: seq<Id>, queue0: seq<Item>, visited0: set<Id>)
    returns (queue: seq<Item>, visited: set<Id>, edges: seq<Edge>, ghost all: seq<Item>)
    requires IsRings(rings, g, root, fanout) && Walking(rings, g, root, fanout, all0, n, visited0)
    requires n < |all0| && cur == all0[n] && cur.depth < |rings| - 1 && callees == Fan(g, cur.id, fanout)
    requires rings[cur.depth] <= visited0 && Between(all0, n, cur.depth) && queue0 == all0[n + 1..]
    ensures all0 <= all && queue == all[n + 1..]
    ensures Walking(rings, g, root, fanout, all, n + 1, visited) && Between(all, n + 1, cur.depth)
    ensures edges == NodeEdges(cur.id, callees)
  {
    hide Ordered, IsRings;
    queue, visited, edges, all := queue0, visited0, [], all0;
    for k := 0 to |callees|
      invariant all0 <= all && queue == all[n + 1..]
      invariant Walking(rings, g, root, fanout, all, n, visited) && Between(all, n, cur.depth)
      invariant rings[cur.depth] <= visited && Elements(callees[..k]) <= visited
      invariant edges == NodeEdges(cur.id, callees[..k])
    {
      var c := callees[k];
      NextCallee(cur.id, callees, k);
      edges := edges + [(cur.id, c)];
      if c !in visited {
        Enqueue(rings, g, root, fanout, all, n, visited, c);
        visited := visited + {c};
        queue := queue + [Item(c, cur.depth + 1)];
        all := all + [Item(c, cur.depth + 1)];
      }
    }
    assert callees[..|callees|] == callees;
    assert Expanded(g, fanout, |rings| - 1, all[n], visited);
  }

  /** bfsCallees. The last result is the order in which nodes left the queue. */
  method BfsCallees(g: Graph, root: Id, depth: int, fanout: int)
    returns (visited: set<Id>, edges: seq<Edge>, order: seq<Item>)
    ensures visited == Within(g, root, fanout, if depth < 0 then 0 else depth)
    ensures Ids(order) == visited && Ordered(RingsOf(g, root, fanout, if depth < 0 then 0 else depth), root, order)
    ensures edges == EdgesOf(g, fanout, depth, order)
  {
    visited, edges, order := Walk(g, root, depth, fanout, RingsOf(g, root, fanout, if depth < 0 then 0 else depth));
  }

  /** The queue loop of bfsCallees, against the distance rings. */
  method Walk(g: Graph, root: Id, depth: int, fanout: int, ghost rings: Rings)
    returns (visited: set<Id>, edges: seq<Edge>, order: seq<Item>)
    requires IsRings(rings, g, root, fanout) && |rings| - 1 == if depth < 0 then 0 else depth
    ensures visited == rings[|rings| - 1] == Ids(order) && Ordered(rings, root, order)
    ensures edges == EdgesOf(g, fanout, depth, order)
  {
    hide Ordered, IsRings;
    WalkStart(rings, g, root, fanout);
    visited := {root};
    edges, order := [], [];
    var queue := [Item(root, 0)];
    ghost var all := queue;
    ghost var base := 0;
    while |queue| > 0
      invariant |order| <= |all| && order == all[..|order|] && queue == all[|order|..]
      invariant Walking(rings, g, root, fanout, all, |order|, visited) && Between(all, |order|, base)
      invariant edges == EdgesOf(g, fanout, depth, order) && |order| <= |rings[|rings| - 1]|
      decreases |rings[|rings| - 1]| - |order|
    {
      TakeFirst(rings, g, root, fanout, all, |order|, visited, base);
      var cur := queue[0];
      base := cur.depth;
      queue := queue[1..];
      EdgesPush(g, fanout, depth, order, cur);
      if cur.depth >= depth {
        order := order + [cur];
        continue;
      }
      var callees := OutEdges(g, cur.id);
      if fanout > 0 && |callees| > fanout {
        callees := callees[..fanout];
      }
      var more;
      queue, visited, more, all := Expand(rings, g, root, fanout, all, |order|, cur, callees, queue, visited);
      edges := edges + more;
      order := order + [cur];
    }
    assert order == all;
    WalkDone(rings, g, root, fanout, all, visited);
  }

  /** The edges drawn are exactly the truncated calls out of nodes closer than depth. */
  lemma {:induction false} EdgesExact(g: Graph, root: Id, fanout: int, depth: nat, order: seq<Item>, a: Id, b: Id)
    requires Ordered(RingsOf(g, root, fanout, depth), root, order) && Ids(order) == Within(g, root, fanout, depth)
    ensures (a, b) in EdgesOf(g, fanout, depth, order) <==>
            depth > 0 && a in Within(g, root, fanout, depth - 1) && b in Fan(g, a, fanout)
  {
    hide Ordered, RingsOf, EdgesOf, Within;
    EdgeMember(g, fanout, depth, order, a, b);
    if depth > 0 {
      WithinMonotone(g, root, fanout, depth - 1, depth);
      forall i | 0 <= i < |order|
        ensures order[i].id in Within(g, root, fanout, depth - 1) <==> order[i].depth < depth
      {
        CloserWithin(g, root, fanout, depth, order, i);
      }
    }
  }

  lemma {:induction false} CloserWithin(g: Graph, root: Id, fanout: int, depth: nat, order: seq<Item>, i: nat)
    requires depth > 0 && Ordered(RingsOf(g, root, fanout, depth), root, order) && i < |order|
    ensures order[i].id in Within(g, root, fanout, depth - 1) <==> order[i].depth < depth
  {
    var rings := RingsOf(g, root, fanout, depth);
    RingsAreRings(g, root, fanout, depth);
    CloserThan(rings, g, root, fanout, order[i], depth);
    assert rings[depth - 1] == Within(g, root, fanout, depth - 1);
  }

  lemma {:induction false} EdgeMember(g: Graph, fanout: int, depth: int, items: seq<Item>, a: Id, b: Id)
    ensures (a, b) in EdgesOf(g, fanout, depth, items) <==>
            exists i :: 0 <= i < |items| && items[i].id == a && items[i].depth < depth && b in Fan(g, a, fanout)
  {
    if |items| > 0 {
      var front, last := items[..|items| - 1], items[|items| - 1];
      EdgeMember(g, fanout, depth, front, a, b);
      if last.id == a && b in Fan(g, a, fanout) {
        var i :| 0 <= i < |Fan(g, a, fanout)| && Fan(g, a, fanout)[i] == b;
        assert NodeEdges(a, Fan(g, a, fanout))[i] == (a, b);
      }
    }
  }

  // ---------- the trim ----------

  function Score(scores: map<Id, real>, id: Id): real { if id in scores then scores[id] else 0.0 }

  /** The ranking: higher score first, ties by ID. */
  predicate Better(scores: map<Id, real>, a: Id, b: Id) {
    if Score(scores, a) != Score(scores, b) then Score(scores, a) > Score(scores, b) else StrLess(a.name, b.name)
  }

  function Ranking(scores: map<Id, real>): (Id, Id) -> bool { (a, b) => Better(scores, a, b) }

  lemma {:induction false} RankingStrictWeak(scores: map<Id, real>)
    ensures StrictWeak(Ranking(scores))
  {
    StrLessStrictWeak();
    assert forall a: Id, b: Id :: StrLess(a.name, b.name) ==> !StrLess(b.name, a.name);
    forall a: Id, b: Id, c: Id | !Better(scores, b, a) && !Better(scores, c, b) ensures !Better(scores, c, a) {
      assert !StrLess(b.name, a.name) && !StrLess(c.name, b.name) ==> !StrLess(c.name, a.name);
    }
  }

  /** keep is the entry, if it was visited, and the best of the other nodes up to n in all. */
  ghost predicate IsTopN(keep: set<Id>, visited: set<Id>, scores: map<Id, real>, n: nat, entry: Id) {
    && keep <= visited && (entry in visited ==> entry in keep)
    && |keep| == (if n < |visited| then n else |visited|)
    && forall a, b :: a in keep && a != entry && b in visited && b !in keep ==> Better(scores, a, b)
  }

  /** That leaves no choice. */
  lemma {:induction false} TopNUnique(k1: set<Id>, k2: set<Id>, visited: set<Id>, scores: map<Id, real>, n: nat,
      entry: Id)
    requires IsTopN(k1, visited, scores, n, entry) && IsTopN(k2, visited, scores, n, entry)
    ensures k1 == k2
  {
    if x :| x in k1 && x !in k2 {
      if k2 <= k1 { SmallerCount(k2, k1, x); }
      var y :| y in k2 && y !in k1;
      StrLessTotal(x.name, y.name);
    }
    if x :| x in k2 && x !in k1 {
      SmallerCount(k1, k2, x);
    }
  }

  /** Every node kept, but for the entry, has a higher score than every node dropped, or the same and a
      smaller ID; a node without a score counts as 0. */
  lemma {:induction false} KeptRankHigher(keep: set<Id>, visited: set<Id>, scores: map<Id, real>, n: nat, entry: Id,
      a: Id, b: Id)
    requires IsTopN(keep, visited, scores, n, entry) && a in keep && a != entry && b in visited && b !in keep
    ensures var s, t := if a in scores then scores[a] else 0.0, if b in scores then scores[b] else 0.0;
            s > t || (s == t && StrLess(a.name, b.name))
  {
  }

  /** topNWithinFrontier: never more than n nodes, for every n >= 1. */
  method TopNWithinFrontier(visited: set<Id>, scores: map<Id, real>, n: int, entry: Id) returns (keep: set<Id>)
    ensures n <= 0 ==> keep == visited
    ensures n > 0 ==> IsTopN(keep, visited, scores, n, entry)
  {
    if n <= 0 || visited == {} {
      return visited;
    }
    hide Distinct, Elements, IsTopN;
    var ids := InSomeOrder(visited);
    var cands := Sort(ids, Ranking(scores));
    keep := if entry in visited then {entry} else {};
    ghost var forced := keep;
    var i := 0;
    PrefixElements(cands, 0);
    while i < |cands|
      invariant 0 <= i <= |cands| && |keep| <= n
      invariant keep == forced + Elements(cands[..i])
    {
      if |keep| >= n {
        break;
      }
      TakeNext(forced, cands, i);
      keep := keep + {cands[i]};
      i := i + 1;
    }
    TopNDone(ids, scores, n, entry, i, keep);
  }

  lemma {:induction false} TakeNext(forced: set<Id>, cands: seq<Id>, i: nat)
    requires i < |cands|
    ensures var keep := forced + Elements(cands[..i]);
            keep + {cands[i]} == forced + Elements(cands[..i + 1]) && |keep + {cands[i]}| <= |keep| + 1
  {
    PrefixElements(cands, i);
  }

  /** The sorted candidates: every node once, and none better than one before it. */
  ghost predicate IsRanked(visited: set<Id>, scores: map<Id, real>, cands: seq<Id>) {
    && Elements(cands) == visited
    && forall j, k :: 0 <= j < k < |cands| ==> Better(scores, cands[j], cands[k])
  }

  lemma {:induction false} Ranked(ids: seq<Id>, scores: map<Id, real>)
    requires Distinct(ids)
    ensures IsRanked(Elements(ids), scores, Sort(ids, Ranking(scores)))
  {
    var cands := Sort(ids, Ranking(scores));
    RankingStrictWeak(scores);
    SortSorts(ids, Ranking(scores));
    MultisetDistinct(ids, cands);
    forall j, k | 0 <= j < k < |cands| ensures Better(scores, cands[j], cands[k]) {
      assert !Ranking(scores)(cands[k], cands[j]);
      StrLessTotal(cands[j].name, cands[k].name);
    }
  }

  lemma {:induction false} TopNDone(ids: seq<Id>, scores: map<Id, real>, n: nat, entry: Id, i: nat, keep: set<Id>)
    requires n > 0 && i <= |ids| && Distinct(ids)
    requires keep == (if entry in Elements(ids) then {entry} else {}) + Elements(Sort(ids, Ranking(scores))[..i])
    requires |keep| <= n && (i == |ids| || |keep| == n)
    ensures IsTopN(keep, Elements(ids), scores, n, entry)
  {
    hide Better, Elements;
    var visited, cands := Elements(ids), Sort(ids, Ranking(scores));
    Ranked(ids, scores);
    PrefixElements(cands, i);
    SubsetCount(keep, visited);
    forall a, b | a in keep && a != entry && b in visited && b !in keep ensures Better(scores, a, b) {
      var j := PlaceOf(cands, i, a);
      var k := PlaceOf(cands, i, b);
    }
  }

  // ---------- the filter ----------

  /** filterFlow. */
  method FilterFlow(visited: set<Id>, edges: seq<Edge>, keep: set<Id>) returns (out: set<Id>, kept: seq<Edge>)
    ensures out == visited * keep
    ensures forall e :: multiset(kept)[e] == if e.0 in out && e.1 in out then multiset(edges)[e] else 0
    ensures IsSubsequence(kept, edges)
  {
    out := {};
    var left := visited;
    while left != {}
      invariant left <= visited && out == (visited - left) * keep
    {
      var id :| id in left;
      if id in keep {
        out := out + {id};
      }
      left := left - {id};
    }
    kept := [];
    for i := 0 to |edges|
      invariant forall e :: multiset(kept)[e] == if e.0 in out && e.1 in out then multiset(edges[..i])[e] else 0
      invariant IsSubsequence(kept, edges[..i])
    {
      assert edges[..i + 1] == edges[..i] + [edges[i]];
      SubsequenceGrows(kept, edges[..i], edges[i]);
      if edges[i].0 in out && edges[i].1 in out {
        kept := kept + [edges[i]];
      }
    }
    assert edges[..|edges|] == edges;
  }

  /** a is b with some elements left out. */
  ghost predicate IsSubsequence<T>(a: seq<T>, b: seq<T>) {
    if |a| == 0 then true
    else if |b| == 0 then false
    else
      || (a[|a| - 1] == b[|b| - 1] && IsSubsequence(a[..|a| - 1], b[..|b| - 1]))
      || IsSubsequence(a, b[..|b| - 1])
  }

  lemma {:induction false} SubsequenceGrows<T>(a: seq<T>, b: seq<T>, x: T)
    requires IsSubsequence(a, b)
    ensures IsSubsequence(a, b + [x]) && IsSubsequence(a + [x], b + [x])
  {
    assert (a + [x])[..|a|] == a && (b + [x])[..|b|] == b;
  }
}
