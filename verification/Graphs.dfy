// Undirected graphs over peer ids: what the strategies build and what the
// routing protocol relies on.
module Graphs {
  import opened Prelude
  import opened PairedMap
  import opened Plans

  type Graph = map<int, set<int>>

  ghost predicate Mutual(g: Graph) {
    forall a :: a in g ==>
      a !in g[a] && forall b :: b in g[a] ==> b in g && a in g[b]
  }

  ghost predicate NoPrivateEdges(g: Graph, private: set<int>) {
    forall a, b :: a in g && b in g[a] ==> a !in private || b !in private
  }

  // An adjacency list that spells out a graph, in any order.
  ghost predicate Listing(adjacency: seq<(int, seq<int>)>, g: Graph) {
    && (forall n, m :: 0 <= n < m < |adjacency| ==> adjacency[n].0 != adjacency[m].0)
    && (forall n :: 0 <= n < |adjacency| ==> adjacency[n].0 in g && Enumerates(adjacency[n].1, g[adjacency[n].0]))
    && (forall a :: a in g ==> exists n :: 0 <= n < |adjacency| && adjacency[n].0 == a)
  }

  // The rows of a plan present a graph: one row per node, ports to its neighbours.
  ghost predicate Presents(rows: seq<Row>, g: Graph) {
    && (forall n :: 0 <= n < |rows| ==> rows[n].id in g && Values(rows[n].ports) == g[rows[n].id])
    && (forall a :: a in g ==> Names(rows, a))
  }

  lemma InElements<T>(s: seq<T>, xs: set<T>, x: T)
    requires Elements(s) == xs
    ensures x in s <==> x in xs
  {
    assert x in s <==> x in Elements(s);
  }

  lemma ListingIsMutual(adjacency: seq<(int, seq<int>)>, g: Graph)
    requires Listing(adjacency, g) && Mutual(g)
    ensures MutualAdjacency(adjacency)
  {
    forall n | 0 <= n < |adjacency|
      ensures ListSimple(adjacency, n)
    {
      var a := adjacency[n].0;
      InElements(adjacency[n].1, g[a], a);
      forall b | b in adjacency[n].1
        ensures b in StaticPlan(adjacency).Ids()
      {
        InElements(adjacency[n].1, g[a], b);
        var m :| 0 <= m < |adjacency| && adjacency[m].0 == b;
        assert StaticPlan(adjacency).Ids()[m] == b;
      }
    }
    forall n, m | 0 <= n < |adjacency| && 0 <= m < |adjacency| && adjacency[m].0 in adjacency[n].1
      ensures adjacency[n].0 in adjacency[m].1
    {
      InElements(adjacency[n].1, g[adjacency[n].0], adjacency[m].0);
      InElements(adjacency[m].1, g[adjacency[m].0], adjacency[n].0);
    }
  }

  // Any listing of a mutual graph makes a simple plan that presents the graph.
  lemma ListingPresents(adjacency: seq<(int, seq<int>)>, g: Graph)
    requires Listing(adjacency, g) && Mutual(g)
    ensures Simple(Rows(StaticPlan(adjacency))) && Presents(Rows(StaticPlan(adjacency)), g)
  {
    ListingIsMutual(adjacency, g);
    StaticIsSimple(adjacency);
    hide Simple, MutualAdjacency, Plan.Ports;
    var plan := StaticPlan(adjacency);
    var rows := Rows(plan);
    forall n | 0 <= n < |rows|
      ensures rows[n].id in g && Values(rows[n].ports) == g[rows[n].id]
    {
      ListedNeighbours(adjacency, g, n);
    }
    forall a | a in g
      ensures Names(rows, a)
    {
      var n :| 0 <= n < |adjacency| && adjacency[n].0 == a;
      assert rows[n].id == a;
    }
  }

  lemma ListedNeighbours(adjacency: seq<(int, seq<int>)>, g: Graph, n: int)
    requires Listing(adjacency, g) && Mutual(g) && 0 <= n < |adjacency|
    ensures Values(StaticPlan(adjacency).Ports(n)) == g[adjacency[n].0]
  {
    StaticRow(adjacency, n);
    hide Plan.Ports, Values;
    var vs := Values(StaticPlan(adjacency).Ports(n));
    forall b
      ensures b in vs <==> b in g[adjacency[n].0]
    {
      InElements(adjacency[n].1, g[adjacency[n].0], b);
      if b in g[adjacency[n].0] {
        var m :| 0 <= m < |adjacency| && adjacency[m].0 == b;
        assert StaticPlan(adjacency).Ids()[m] == b;
      }
    }
  }

  // The undirected links of a graph.
  ghost function EdgePairs(g: Graph): (r: set<Pair>) {
    set a, b | a in g && b in g[a] :: PairKey(a, b)
  }

  lemma {:induction false} InLinkPairs(rows: seq<Row>, k: Pair)
    ensures k in LinkPairs(rows) <==> exists n :: 0 <= n < |rows| && k in RowPairs(rows[n].id, rows[n].ports)
    decreases |rows|
  {
    hide RowPairs;
    if rows != [] {
      var n := |rows| - 1;
      InLinkPairs(rows[..n], k);
      assert forall m :: 0 <= m < n ==> rows[..n][m] == rows[m];
    }
  }

  // A plan that presents a graph asks the allocator for exactly the graph's links.
  lemma PresentedPairs(rows: seq<Row>, g: Graph)
    requires Presents(rows, g)
    ensures LinkPairs(rows) == EdgePairs(g)
  {
    forall k
      ensures k in LinkPairs(rows) <==> k in EdgePairs(g)
    {
      InLinkPairs(rows, k);
      hide LinkPairs, Values;
      if k in EdgePairs(g) {
        var a, b :| a in g && b in g[a] && k == PairKey(a, b);
        var n :| 0 <= n < |rows| && rows[n].id == a;
        assert k in RowPairs(rows[n].id, rows[n].ports);
      }
      if k in LinkPairs(rows) {
        var n :| 0 <= n < |rows| && k in RowPairs(rows[n].id, rows[n].ports);
        var b :| b in Values(rows[n].ports) && k == PairKey(rows[n].id, b);
        assert rows[n].id in g && b in g[rows[n].id];
      }
    }
  }

  // ----- Reachability -----

  ghost predicate Step(g: Graph, a: int, b: int) {
    a in g && b in g[a]
  }

  ghost predicate Path(g: Graph, within: set<int>, p: seq<int>) {
    && |p| > 0
    && (forall i :: 0 <= i < |p| ==> p[i] in within)
    && (forall i :: 0 <= i < |p| - 1 ==> Step(g, p[i], p[i + 1]))
  }

  ghost predicate Reach(g: Graph, within: set<int>, a: int, b: int) {
    exists p :: Path(g, within, p) && p[0] == a && p[|p| - 1] == b
  }

  // Every two nodes of the set are joined by a path that stays in the set.
  ghost predicate Connected(g: Graph, within: set<int>) {
    forall a, b :: a in within && b in within ==> Reach(g, within, a, b)
  }

  lemma ReachSelf(g: Graph, within: set<int>, a: int)
    requires a in within
    ensures Reach(g, within, a, a)
  {
    assert Path(g, within, [a]);
  }

  lemma ReachStep(g: Graph, within: set<int>, a: int, b: int)
    requires a in within && b in within && Step(g, a, b)
    ensures Reach(g, within, a, b)
  {
    assert Path(g, within, [a, b]);
  }

  lemma ReachTrans(g: Graph, within: set<int>, a: int, b: int, c: int)
    requires Reach(g, within, a, b) && Reach(g, within, b, c)
    ensures Reach(g, within, a, c)
  {
    var p :| Path(g, within, p) && p[0] == a && p[|p| - 1] == b;
    var q :| Path(g, within, q) && q[0] == b && q[|q| - 1] == c;
    var r := p + q[1..];
    assert Path(g, within, r);
    assert r[|r| - 1] == c;
  }

  lemma ReachWider(g: Graph, h: Graph, less: set<int>, more: set<int>, a: int, b: int)
    requires Reach(g, less, a, b) && less <= more
    requires forall x, y :: Step(g, x, y) ==> Step(h, x, y)
    ensures Reach(h, more, a, b)
  {
    var p :| Path(g, less, p) && p[0] == a && p[|p| - 1] == b;
    assert Path(h, more, p);
  }

  // A sequence of nodes in which neighbours are linked both ways.
  ghost predicate Line(g: Graph, within: set<int>, q: seq<int>) {
    && (forall i :: 0 <= i < |q| ==> q[i] in within)
    && (forall i :: 0 <= i < |q| - 1 ==> Step(g, q[i], q[i + 1]) && Step(g, q[i + 1], q[i]))
  }

  lemma {:induction false} LineReach(g: Graph, within: set<int>, q: seq<int>, i: int, j: int)
    requires Line(g, within, q) && 0 <= i <= j < |q|
    ensures Reach(g, within, q[i], q[j]) && Reach(g, within, q[j], q[i])
    decreases j - i
  {
    if i == j {
      ReachSelf(g, within, q[i]);
    } else {
      LineReach(g, within, q, i, j - 1);
      assert Step(g, q[j - 1], q[j - 1 + 1]);
      ReachStep(g, within, q[j - 1], q[j]);
      ReachStep(g, within, q[j], q[j - 1]);
      ReachTrans(g, within, q[i], q[j - 1], q[j]);
      ReachTrans(g, within, q[j], q[j - 1], q[i]);
    }
  }

  lemma LineConnects(g: Graph, within: set<int>, q: seq<int>)
    requires Line(g, within, q) && Elements(q) == within
    ensures Connected(g, within)
  {
    hide Line, Reach;
    forall a, b | a in within && b in within
      ensures Reach(g, within, a, b)
    {
      InElements(q, within, a);
      InElements(q, within, b);
      var i :| 0 <= i < |q| && q[i] == a;
      var j :| 0 <= j < |q| && q[j] == b;
      if i <= j {
        LineReach(g, within, q, i, j);
      } else {
        LineReach(g, within, q, j, i);
      }
    }
  }

  // The graph after one link has failed.
  ghost function Cut(g: Graph, x: int, y: int): (h: Graph) {
    map a | a in g :: g[a] - (if a == x then {y} else {}) - (if a == y then {x} else {})
  }

  // Leaves attached to a connected core keep the whole connected.
  lemma CoreConnects(g: Graph, core: set<int>, all: set<int>, hub: map<int, int>)
    requires Connected(g, core) && core <= all
    requires forall v :: v in all ==> v in hub && hub[v] in core
    requires forall v :: v in all - core ==> Step(g, v, hub[v]) && Step(g, hub[v], v)
    requires forall v :: v in core ==> hub[v] == v
    ensures Connected(g, all)
  {
    hide Reach;
    forall a, b | a in all && b in all
      ensures Reach(g, all, a, b)
    {
      assert Reach(g, core, hub[a], hub[b]);
      ReachWider(g, g, core, all, hub[a], hub[b]);
      HubReach(g, all, a, hub[a]);
      HubReach(g, all, b, hub[b]);
      ReachTrans(g, all, a, hub[a], hub[b]);
      ReachTrans(g, all, a, hub[b], b);
    }
  }

  lemma HubReach(g: Graph, all: set<int>, a: int, h: int)
    requires a in all && h in all
    requires a == h || (Step(g, a, h) && Step(g, h, a))
    ensures Reach(g, all, a, h) && Reach(g, all, h, a)
  {
    if a == h {
      ReachSelf(g, all, a);
    } else {
      ReachStep(g, all, a, h);
      ReachStep(g, all, h, a);
    }
  }
}
