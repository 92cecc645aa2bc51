// What the crossed and circular backbones guarantee: mutual links, one link per
// private peer, connectivity, and survival of any single public failure.
module Backbone {
  import opened Prelude
  import opened PairedMap
  import opened Plans
  import opened Partition
  import opened Graphs
  import opened CrossedStrategy
  import Ring

  lemma Split(pubs: seq<int>, privs: seq<int>)
    requires Distinct(pubs + privs)
    ensures Distinct(pubs) && Distinct(privs)
    ensures forall i, k :: 0 <= i < |pubs| && 0 <= k < |privs| ==> pubs[i] != privs[k]
    ensures Elements(pubs) !! Elements(privs)
  {
    var all := pubs + privs;
    assert forall j :: 0 <= j < |pubs| ==> all[j] == pubs[j];
    assert forall k :: 0 <= k < |privs| ==> all[|pubs| + k] == privs[k];
  }

  lemma RingIdsAt(shape: Ring.Shape, pubs: seq<int>, i: int, j: int)
    requires Distinct(pubs) && 0 <= i < |pubs| && 0 <= j < |pubs|
    ensures pubs[j] in RingIds(shape, pubs, i) <==> |pubs| > 1 && j in Ring.Peers(shape, |pubs|, i)
  {
    hide Ring.Peers;
  }

  lemma RingIdsWithin(shape: Ring.Shape, pubs: seq<int>, i: int, b: int) returns (j: int)
    requires 0 <= i < |pubs| && b in RingIds(shape, pubs, i)
    ensures |pubs| > 1 && 0 <= j < |pubs| && pubs[j] == b && j in Ring.Peers(shape, |pubs|, i)
  {
    hide Ring.Peers;
    j :| 0 <= j < |pubs| && j in Ring.Peers(shape, |pubs|, i) && pubs[j] == b;
  }

  lemma PublicEdge(shape: Ring.Shape, pubs: seq<int>, privs: seq<int>, g: Graph, i: int, b: int)
    requires Built(shape, pubs, privs, g) && Distinct(pubs) && 0 <= i < |pubs|
    requires forall i, k :: 0 <= i < |pubs| && 0 <= k < |privs| ==> pubs[i] != privs[k]
    requires b in g[pubs[i]]
    ensures b != pubs[i] && b in g && pubs[i] in g[b]
  {
    hide Ring.Peers, RingIds, OwnedIds, Owns;
    if b in RingIds(shape, pubs, i) {
      var j := RingIdsWithin(shape, pubs, i, b);
      Ring.PeersAreSimple(shape, |pubs|, i);
      Ring.PeersAreSymmetric(shape, |pubs|, i, j);
      RingIdsAt(shape, pubs, j, i);
    } else {
      var k := Shared(pubs, privs, i, b);
    }
  }

  lemma Shared(pubs: seq<int>, privs: seq<int>, i: int, b: int) returns (k: int)
    requires 0 <= i < |pubs| && b in OwnedIds(pubs, privs, i)
    ensures 0 <= k < |privs| && privs[k] == b && Owns(pubs, privs, i, k)
  {
    k :| 0 <= k < |privs| && Owns(pubs, privs, i, k) && privs[k] == b;
  }

  // Each private peer has exactly one link, to the one public peer that owns it.
  lemma PrivateEdge(shape: Ring.Shape, pubs: seq<int>, privs: seq<int>, g: Graph, k: int) returns (i: int)
    requires Built(shape, pubs, privs, g) && 0 <= k < |privs|
    ensures 0 <= i < |pubs| && Owns(pubs, privs, i, k)
    ensures privs[k] in g && g[privs[k]] == {pubs[i]} && pubs[i] in g && privs[k] in g[pubs[i]]
  {
    i := Owner(|privs|, |pubs|, k);
    hide Start, RingIds;
    assert privs[k] in OwnedIds(pubs, privs, i);
  }

  lemma BuiltIsMutual(shape: Ring.Shape, pubs: seq<int>, privs: seq<int>, g: Graph)
    requires Built(shape, pubs, privs, g) && Distinct(pubs + privs)
    ensures Mutual(g)
    ensures NoPrivateEdges(g, Elements(privs))
  {
    Split(pubs, privs);
    hide RingIds, OwnedIds, Owns;
    forall a | a in g
      ensures a !in g[a] && forall b :: b in g[a] ==> b in g && a in g[b]
      ensures a in Elements(privs) ==> forall b :: b in g[a] ==> b !in Elements(privs)
    {
      if a in Elements(privs) {
        var k :| 0 <= k < |privs| && privs[k] == a;
        var i := PrivateEdge(shape, pubs, privs, g, k);
      } else {
        var i :| 0 <= i < |pubs| && pubs[i] == a;
        forall b | b in g[a]
          ensures b != a && b in g && a in g[b]
        {
          PublicEdge(shape, pubs, privs, g, i, b);
        }
      }
    }
  }

  function PublicDegree(shape: Ring.Shape, n: nat, m: nat, i: nat): (r: nat)
    requires n > 0
  {
    (if n == 1 then 0 else Ring.PeersCount(shape, n, i)) + Share(m, n, i)
  }

  // Private peers have degree one; public degrees are the ring degree plus the share.
  lemma BuiltDegrees(shape: Ring.Shape, pubs: seq<int>, privs: seq<int>, g: Graph)
    requires Built(shape, pubs, privs, g) && Distinct(pubs + privs)
    ensures forall k :: 0 <= k < |privs| ==> |g[privs[k]]| == 1
    ensures forall i :: 0 <= i < |pubs| ==>
              |g[pubs[i]]| == PublicDegree(shape, |pubs|, |privs|, i)
  {
    Split(pubs, privs);
    forall k | 0 <= k < |privs|
      ensures |g[privs[k]]| == 1
    {
      var i := PrivateEdge(shape, pubs, privs, g, k);
    }
    forall i | 0 <= i < |pubs|
      ensures |g[pubs[i]]| == PublicDegree(shape, |pubs|, |privs|, i)
    {
      hide Ring.Peers, Ring.PeersCount, OwnedIds, RingIds;
      RingIdsSize(shape, pubs, i);
      ShareSize(pubs, privs, i);
      DisjointParts(shape, pubs, privs, i);
    }
  }

  // The public and the private neighbours of a public peer.
  lemma PublicParts(shape: Ring.Shape, pubs: seq<int>, privs: seq<int>, g: Graph, i: int)
    requires Built(shape, pubs, privs, g) && Distinct(pubs + privs) && 0 <= i < |pubs|
    ensures |g[pubs[i]] * Elements(pubs)| == if |pubs| == 1 then 0 else Ring.PeersCount(shape, |pubs|, i)
    ensures |g[pubs[i]] * Elements(privs)| == Share(|privs|, |pubs|, i)
  {
    Split(pubs, privs);
    RingIdsSize(shape, pubs, i);
    ShareSize(pubs, privs, i);
    PartsInside(shape, pubs, privs, i);
    assert g[pubs[i]] == RingIds(shape, pubs, i) + OwnedIds(pubs, privs, i);
    hide *;
    TwoParts(RingIds(shape, pubs, i), OwnedIds(pubs, privs, i), Elements(pubs), Elements(privs));
  }

  lemma TwoParts(a: set<int>, b: set<int>, x: set<int>, y: set<int>)
    requires a <= x && b <= y && x !! y
    ensures (a + b) * x == a && (a + b) * y == b
  {
  }

  lemma PartsInside(shape: Ring.Shape, pubs: seq<int>, privs: seq<int>, i: int)
    requires 0 <= i < |pubs|
    ensures RingIds(shape, pubs, i) <= Elements(pubs) && OwnedIds(pubs, privs, i) <= Elements(privs)
  {
    hide Ring.Peers, Owns;
  }

  lemma DisjointParts(shape: Ring.Shape, pubs: seq<int>, privs: seq<int>, i: int)
    requires Elements(pubs) !! Elements(privs) && 0 <= i < |pubs|
    ensures RingIds(shape, pubs, i) !! OwnedIds(pubs, privs, i)
  {
    hide Ring.Peers, Owns;
    assert RingIds(shape, pubs, i) <= Elements(pubs);
    assert OwnedIds(pubs, privs, i) <= Elements(privs);
  }

  lemma RingIdsSize(shape: Ring.Shape, pubs: seq<int>, i: int)
    requires Distinct(pubs) && 0 <= i < |pubs|
    ensures |RingIds(shape, pubs, i)| == if |pubs| == 1 then 0 else Ring.PeersCount(shape, |pubs|, i)
  {
    if |pubs| > 1 {
      var peers := Ring.Peers(shape, |pubs|, i);
      Ring.PeersAreSimple(shape, |pubs|, i);
      hide Ring.Peers, Ring.PeersCount;
      var ids := seq(|peers|, p requires 0 <= p < |peers| => pubs[peers[p]]);
      DistinctSize(ids);
      forall b | b in RingIds(shape, pubs, i)
        ensures b in ids
      {
        var j := RingIdsWithin(shape, pubs, i, b);
        var p :| 0 <= p < |peers| && peers[p] == j;
        assert ids[p] == b;
      }
      assert RingIds(shape, pubs, i) == Elements(ids);
    }
  }

  lemma ShareSize(pubs: seq<int>, privs: seq<int>, i: nat)
    requires Distinct(privs) && i < |pubs|
    ensures |OwnedIds(pubs, privs, i)| == Share(|privs|, |pubs|, i)
  {
    ShareIsSlice(pubs, privs, i);
    var from, to := Start(|privs|, |pubs|, i), Start(|privs|, |pubs|, i + 1);
    assert to == from + Share(|privs|, |pubs|, i);
    hide Share, OwnedIds, Start;
    DistinctSize(privs[from..to]);
  }

  // ----- Number of links -----

  ghost function RingPairs(shape: Ring.Shape, pubs: seq<int>): (r: set<Pair>) {
    if |pubs| < 2 then {}
    else
      set k | k in Ring.Links(shape, |pubs|) && 0 <= k.0 < |pubs| && 0 <= k.1 < |pubs| ::
        PairKey(pubs[k.0], pubs[k.1])
  }

  ghost function LeafPairs(privs: seq<int>, g: Graph): (r: set<Pair>) {
    set v, h | v in privs && v in g && h in g[v] :: PairKey(v, h)
  }

  lemma LinksInRange(shape: Ring.Shape, n: int, k: Pair)
    requires 2 <= n && k in Ring.Links(shape, n)
    ensures 0 <= k.0 < k.1 < n && k.1 in Ring.Peers(shape, n, k.0)
  {
    hide Ring.Peers;
    var i, j :| i in Range(n) && j in Range(n) && j in Ring.Peers(shape, n, i) && k == PairKey(i, j);
    Ring.PeersAreSimple(shape, n, i);
    Ring.PeersAreSymmetric(shape, n, i, j);
  }

  lemma RingPairsSize(shape: Ring.Shape, pubs: seq<int>)
    requires Distinct(pubs) && |pubs| >= 2
    ensures |RingPairs(shape, pubs)| == |Ring.Links(shape, |pubs|)|
  {
    var ks := Ring.Links(shape, |pubs|);
    forall k | k in ks
      ensures 0 <= k.0 < k.1 < |pubs|
    {
      LinksInRange(shape, |pubs|, k);
    }
    hide Ring.Links, PairKey, Distinct, Image, RingPairs;
    var f := map k | k in ks :: PairKey(pubs[k.0], pubs[k.1]);
    forall k, m | k in ks && m in ks && k != m
      ensures f[k] != f[m]
    {
      PositionsDiffer(pubs, k, m);
    }
    ImageSize(ks, f);
    RingPairsAre(shape, pubs, f);
  }

  lemma RingPairsAre(shape: Ring.Shape, pubs: seq<int>, f: map<Pair, Pair>)
    requires |pubs| >= 2 && f.Keys == Ring.Links(shape, |pubs|)
    requires forall k :: k in f ==> 0 <= k.0 < k.1 < |pubs| && f[k] == PairKey(pubs[k.0], pubs[k.1])
    ensures RingPairs(shape, pubs) == Image(Ring.Links(shape, |pubs|), f)
  {
    hide Ring.Links, PairKey;
  }

  lemma PositionsDiffer(pubs: seq<int>, k: Pair, m: Pair)
    requires Distinct(pubs) && 0 <= k.0 < k.1 < |pubs| && 0 <= m.0 < m.1 < |pubs| && k != m
    ensures PairKey(pubs[k.0], pubs[k.1]) != PairKey(pubs[m.0], pubs[m.1])
  {
  }

  // The one neighbour of every private peer.
  lemma Hubs(shape: Ring.Shape, pubs: seq<int>, privs: seq<int>, g: Graph) returns (hub: map<int, int>)
    requires Built(shape, pubs, privs, g)
    ensures hub.Keys == Elements(privs)
    ensures forall v :: v in hub ==> v in g && g[v] == {hub[v]} && hub[v] in Elements(pubs)
  {
    hide Built;
    hub := map[];
    var k := 0;
    while k < |privs|
      invariant 0 <= k <= |privs|
      invariant hub.Keys == Elements(privs[..k])
      invariant forall v :: v in hub ==> v in g && g[v] == {hub[v]} && hub[v] in Elements(pubs)
    {
      var i := PrivateEdge(shape, pubs, privs, g, k);
      assert pubs[i] in Elements(pubs);
      assert privs[..k + 1] == privs[..k] + [privs[k]];
      hub := hub[privs[k] := pubs[i]];
      k := k + 1;
    }
    assert privs[..k] == privs;
  }

  lemma LeavesDiffer(v: int, h: int, w: int, i: int)
    requires v != w && v != i
    ensures PairKey(v, h) != PairKey(w, i)
  {
    PairKeyIdentifies(v, h, w, i);
    assert v in {v, h};
  }

  lemma LeafPairsSize(shape: Ring.Shape, pubs: seq<int>, privs: seq<int>, g: Graph)
    requires Built(shape, pubs, privs, g) && Distinct(pubs + privs)
    ensures |LeafPairs(privs, g)| == |privs|
  {
    hide Built, PairKey;
    Split(pubs, privs);
    var hub := Hubs(shape, pubs, privs, g);
    DistinctSize(privs);
    hide Distinct, Image, LeafPairs;
    var f := map v | v in hub :: PairKey(v, hub[v]);
    forall v, w | v in hub && w in hub && v != w
      ensures f[v] != f[w]
    {
      LeavesDiffer(v, hub[v], w, hub[w]);
    }
    ImageSize(hub.Keys, f);
    LeafPairsAre(privs, g, hub, f);
  }

  lemma LeafPairsAre(privs: seq<int>, g: Graph, hub: map<int, int>, f: map<int, Pair>)
    requires hub.Keys == Elements(privs) && forall v :: v in hub ==> v in g && g[v] == {hub[v]}
    requires f == map v | v in hub :: PairKey(v, hub[v])
    ensures LeafPairs(privs, g) == Image(hub.Keys, f)
  {
    hide PairKey;
    forall v, h | v in privs && v in g && h in g[v]
      ensures PairKey(v, h) in Image(hub.Keys, f)
    {
      assert v in Elements(privs);
      assert h == hub[v];
      assert f[v] == PairKey(v, h);
    }
    forall v | v in hub
      ensures f[v] in LeafPairs(privs, g)
    {
      assert v in Elements(privs) && hub[v] in g[v];
    }
  }

  // The backbone has the links of the ring plus one per private cell.
  lemma BuiltLinkCount(shape: Ring.Shape, pubs: seq<int>, privs: seq<int>, g: Graph)
    requires Built(shape, pubs, privs, g) && Distinct(pubs + privs)
    ensures |EdgePairs(g)| == RingLinkCount(shape, |pubs|) + |privs|
  {
    Split(pubs, privs);
    LeafPairsSize(shape, pubs, privs, g);
    EdgesAreParts(shape, pubs, privs, g);
    if |pubs| >= 2 {
      RingPairsSize(shape, pubs);
      Ring.LinkCount(shape, |pubs|);
    }
    hide Built, RingPairs, LeafPairs, EdgePairs;
    assert |RingPairs(shape, pubs) + LeafPairs(privs, g)| == |RingPairs(shape, pubs)| + |LeafPairs(privs, g)|;
  }

  function RingLinkCount(shape: Ring.Shape, n: int): (r: int) {
    if n < 2 then 0 else if n == 2 then 1 else if shape.Crossed? && n >= 4 then n + n / 2 else n
  }

  lemma EdgesAreParts(shape: Ring.Shape, pubs: seq<int>, privs: seq<int>, g: Graph)
    requires Built(shape, pubs, privs, g) && Distinct(pubs + privs)
    ensures EdgePairs(g) == RingPairs(shape, pubs) + LeafPairs(privs, g)
    ensures |pubs| < 2 ==> RingPairs(shape, pubs) == {}
    ensures RingPairs(shape, pubs) !! LeafPairs(privs, g)
  {
    Split(pubs, privs);
    BuiltIsMutual(shape, pubs, privs, g);
    forall k | k in EdgePairs(g)
      ensures k in RingPairs(shape, pubs) + LeafPairs(privs, g)
    {
      var a, b :| a in g && b in g[a] && k == PairKey(a, b);
      EdgeIsPart(shape, pubs, privs, g, a, b);
    }
    forall k | k in RingPairs(shape, pubs)
      ensures k in EdgePairs(g) && k !in LeafPairs(privs, g)
    {
      RingPairIsEdge(shape, pubs, privs, g, k);
    }
    forall k | k in LeafPairs(privs, g)
      ensures k in EdgePairs(g)
    {
      var v, h :| v in privs && v in g && h in g[v] && k == PairKey(v, h);
      assert v in g && h in g[v];
    }
  }

  lemma EdgeIsPart(shape: Ring.Shape, pubs: seq<int>, privs: seq<int>, g: Graph, a: int, b: int)
    requires Built(shape, pubs, privs, g) && Distinct(pubs + privs) && Mutual(g) && a in g && b in g[a]
    ensures PairKey(a, b) in RingPairs(shape, pubs) + LeafPairs(privs, g)
  {
    hide RingIds, OwnedIds, Owns;
    assert b in g && a in g[b];
    assert PairKey(a, b) == PairKey(b, a);
    if a in privs {
      assert PairKey(a, b) in LeafPairs(privs, g);
    } else if b in privs {
      assert PairKey(b, a) in LeafPairs(privs, g);
    } else {
      assert a in Elements(pubs);
      var i :| 0 <= i < |pubs| && pubs[i] == a;
      if b in OwnedIds(pubs, privs, i) {
        var k := Shared(pubs, privs, i, b);
      } else {
        var j := RingIdsWithin(shape, pubs, i, b);
        PositionPair(shape, pubs, i, j);
      }
    }
  }

  lemma PositionPair(shape: Ring.Shape, pubs: seq<int>, i: int, j: int)
    requires |pubs| >= 2 && 0 <= i < |pubs| && 0 <= j < |pubs| && j in Ring.Peers(shape, |pubs|, i)
    ensures PairKey(pubs[i], pubs[j]) in RingPairs(shape, pubs)
  {
    hide Ring.Peers;
    var k := PairKey(i, j);
    assert i in Range(|pubs|) && j in Range(|pubs|);
    assert k in Ring.Links(shape, |pubs|);
    hide Ring.Links;
    assert PairKey(pubs[k.0], pubs[k.1]) == PairKey(pubs[i], pubs[j]);
  }

  lemma RingPairIsEdge(shape: Ring.Shape, pubs: seq<int>, privs: seq<int>, g: Graph, k: Pair)
    requires Built(shape, pubs, privs, g) && Distinct(pubs + privs) && k in RingPairs(shape, pubs)
    ensures k in EdgePairs(g) && k !in LeafPairs(privs, g)
  {
    Split(pubs, privs);
    hide Ring.Peers, OwnedIds, Owns;
    var p :| p in Ring.Links(shape, |pubs|) && 0 <= p.0 < |pubs| && 0 <= p.1 < |pubs| &&
             k == PairKey(pubs[p.0], pubs[p.1]);
    LinksInRange(shape, |pubs|, p);
    hide Ring.Links;
    RingIdsAt(shape, pubs, p.0, p.1);
    var a, b := pubs[p.0], pubs[p.1];
    assert a in g && b in g[a];
    forall v, h | v in privs && v in g && h in g[v]
      ensures PairKey(v, h) != k
    {
      PairKeyIdentifies(v, h, a, b);
      assert v in {v, h};
    }
  }

  // ----- Connectivity -----

  lemma RingStep(shape: Ring.Shape, pubs: seq<int>, privs: seq<int>, g: Graph, i: int)
    requires Built(shape, pubs, privs, g) && Distinct(pubs + privs) && |pubs| >= 2 && 0 <= i < |pubs|
    ensures var j := Ring.PeerRight(i, |pubs|);
            Step(g, pubs[i], pubs[j]) && Step(g, pubs[j], pubs[i])
  {
    Split(pubs, privs);
    var j := Ring.PeerRight(i, |pubs|);
    Ring.PeersAreLinked(shape, |pubs|, i, j);
    Ring.PeersAreLinked(shape, |pubs|, j, i);
    hide Ring.Peers, RingIds, OwnedIds;
    RingIdsAt(shape, pubs, i, j);
    RingIdsAt(shape, pubs, j, i);
  }

  // The public peers read off the ring from position k.
  function Rotation(pubs: seq<int>, k: int): (q: seq<int>)
    requires 0 <= k < |pubs|
    ensures |q| == |pubs|
    ensures forall t :: 0 <= t < |q| ==> q[t] == pubs[Turn(|pubs|, k, t)]
    ensures Elements(q) == Elements(pubs)
  {
    var q := pubs[k..] + pubs[..k];
    assert pubs == pubs[..k] + pubs[k..];
    q
  }

  function Turn(n: int, k: int, t: int): (r: int)
    requires 0 <= k < n && 0 <= t < n
    ensures 0 <= r < n
  {
    if k + t < n then k + t else k + t - n
  }

  lemma TurnStep(n: int, k: int, t: int)
    requires 0 <= k < n && 0 <= t < n - 1
    ensures Turn(n, k, t + 1) == Ring.PeerRight(Turn(n, k, t), n)
    ensures Turn(n, k, t + 1) != k
  {
    hide Ring.PeerRight;
  }

  lemma PublicConnected(shape: Ring.Shape, pubs: seq<int>, privs: seq<int>, g: Graph)
    requires Built(shape, pubs, privs, g) && Distinct(pubs + privs)
    ensures Connected(g, Elements(pubs))
  {
    hide Built, Ring.PeerRight;
    forall t | 0 <= t < |pubs| - 1
      ensures Step(g, pubs[t], pubs[t + 1]) && Step(g, pubs[t + 1], pubs[t])
    {
      RingStep(shape, pubs, privs, g, t);
    }
    hide Step;
    assert Line(g, Elements(pubs), pubs);
    LineConnects(g, Elements(pubs), pubs);
  }

  // With at least one public cell the backbone connects all cells.
  lemma AllConnected(shape: Ring.Shape, pubs: seq<int>, privs: seq<int>, g: Graph)
    requires Built(shape, pubs, privs, g) && Distinct(pubs + privs)
    ensures Connected(g, g.Keys)
  {
    PublicConnected(shape, pubs, privs, g);
    Split(pubs, privs);
    assert g.Keys == Elements(pubs) + Elements(privs);
    forall v | v in Elements(privs)
      ensures exists h :: h in Elements(pubs) && Step(g, v, h) && Step(g, h, v)
    {
      var k :| 0 <= k < |privs| && privs[k] == v;
      var i := PrivateEdge(shape, pubs, privs, g, k);
      assert pubs[i] in Elements(pubs);
    }
    hide Built, Connected, Step;
    var hub := map v | v in g.Keys ::
      if v in Elements(pubs) then v else var h :| h in Elements(pubs) && Step(g, v, h) && Step(g, h, v); h;
    CoreConnects(g, Elements(pubs), g.Keys, hub);
  }

  lemma CutStep(g: Graph, x: int, y: int, a: int, b: int)
    requires Step(g, a, b) && !(a == x && b == y) && !(a == y && b == x)
    ensures Step(Cut(g, x, y), a, b)
  {
  }

  // Any single failing public-public link leaves the public cells connected.
  lemma SurvivesLinkLoss(shape: Ring.Shape, pubs: seq<int>, privs: seq<int>, g: Graph, i: int, j: int)
    requires Built(shape, pubs, privs, g) && Distinct(pubs + privs) && |pubs| >= 3
    requires 0 <= i < |pubs| && 0 <= j < |pubs| && i != j
    ensures Connected(Cut(g, pubs[i], pubs[j]), Elements(pubs))
  {
    Split(pubs, privs);
    var n := |pubs|;
    var h := Cut(g, pubs[i], pubs[j]);
    // Read the ring from one end of the failed link, so that the link is not used.
    var k := if j == Ring.PeerRight(i, n) then j else i;
    var q := Rotation(pubs, k);
    hide Built, Ring.PeerRight, Cut, Rotation, Connected, Elements;
    forall t | 0 <= t < n - 1
      ensures Step(h, q[t], q[t + 1]) && Step(h, q[t + 1], q[t])
    {
      var u := Turn(n, k, t);
      TurnStep(n, k, t);
      RingStep(shape, pubs, privs, g, u);
      CutStep(g, pubs[i], pubs[j], q[t], q[t + 1]);
      CutStep(g, pubs[i], pubs[j], q[t + 1], q[t]);
    }
    RotationLine(h, pubs, q);
  }

  lemma RotationLine(h: Graph, pubs: seq<int>, q: seq<int>)
    requires Elements(q) == Elements(pubs)
    requires forall t :: 0 <= t < |q| - 1 ==> Step(h, q[t], q[t + 1]) && Step(h, q[t + 1], q[t])
    ensures Connected(h, Elements(pubs))
  {
    hide Step;
    forall t | 0 <= t < |q|
      ensures q[t] in Elements(pubs)
    {
      assert q[t] in Elements(q);
    }
    LineConnects(h, Elements(pubs), q);
  }

  // Losing any single public cell leaves the other public cells connected.
  lemma SurvivesCellLoss(shape: Ring.Shape, pubs: seq<int>, privs: seq<int>, g: Graph, i: int)
    requires Built(shape, pubs, privs, g) && Distinct(pubs + privs) && |pubs| >= 3 && 0 <= i < |pubs|
    ensures Connected(g, Elements(pubs) - {pubs[i]})
  {
    Split(pubs, privs);
    hide Built, Ring.PeerRight, Connected, Elements, Rotation;
    var rest := Rotation(pubs, i)[1..];
    WithoutFirst(pubs, i);
    forall t | 0 <= t < |rest| - 1
      ensures Step(g, rest[t], rest[t + 1]) && Step(g, rest[t + 1], rest[t])
    {
      RestStep(shape, pubs, privs, g, i, t);
    }
    RestLine(g, Elements(pubs) - {pubs[i]}, rest);
  }

  lemma RestAt(pubs: seq<int>, i: int, t: int)
    requires 0 <= i < |pubs| && 0 <= t < |pubs| - 2
    ensures var rest := Rotation(pubs, i)[1..]; var k := Turn(|pubs|, i, t + 1);
            rest[t] == pubs[k] && rest[t + 1] == pubs[Ring.PeerRight(k, |pubs|)]
  {
    var q := Rotation(pubs, i);
    TurnStep(|pubs|, i, t + 1);
    hide *;
    assert q[1..][t] == q[t + 1] && q[1..][t + 1] == q[t + 2];
    assert q[t + 1] == pubs[Turn(|pubs|, i, t + 1)] && q[t + 2] == pubs[Turn(|pubs|, i, t + 1 + 1)];
  }

  lemma RestStep(shape: Ring.Shape, pubs: seq<int>, privs: seq<int>, g: Graph, i: int, t: int)
    requires Built(shape, pubs, privs, g) && Distinct(pubs + privs) && 0 <= i < |pubs| && 0 <= t < |pubs| - 2
    ensures var rest := Rotation(pubs, i)[1..];
            Step(g, rest[t], rest[t + 1]) && Step(g, rest[t + 1], rest[t])
  {
    hide *;
    RestAt(pubs, i, t);
    RingStep(shape, pubs, privs, g, Turn(|pubs|, i, t + 1));
  }

  lemma WithoutFirst(pubs: seq<int>, i: int)
    requires Distinct(pubs) && 0 <= i < |pubs|
    ensures Elements(Rotation(pubs, i)[1..]) == Elements(pubs) - {pubs[i]}
  {
    RotationDistinct(pubs, i);
    var q := Rotation(pubs, i);
    hide Rotation;
    var rest := q[1..];
    assert q == [q[0]] + rest;
    assert Elements(q) == {q[0]} + Elements(rest);
  }

  lemma RestLine(g: Graph, within: set<int>, rest: seq<int>)
    requires Elements(rest) == within
    requires forall t :: 0 <= t < |rest| - 1 ==> Step(g, rest[t], rest[t + 1]) && Step(g, rest[t + 1], rest[t])
    ensures Connected(g, within)
  {
    RotationLine(g, rest, rest);
  }

  lemma RotationDistinct(pubs: seq<int>, k: int)
    requires Distinct(pubs) && 0 <= k < |pubs|
    ensures Distinct(Rotation(pubs, k)) && Rotation(pubs, k)[0] == pubs[k]
  {
    var q := Rotation(pubs, k);
    assert q[0] == pubs[Turn(|pubs|, k, 0)];
  }

  // Without private peers the strategies hand the ring itself to deploy(); its
  // rows present the same graph.
  lemma RingPresents(shape: Ring.Shape, pubs: seq<int>, g: Graph)
    requires Built(shape, pubs, [], g) && Distinct(pubs) && |pubs| >= 2
    ensures Simple(Rows(RingPlan(shape, pubs))) && Presents(Rows(RingPlan(shape, pubs)), g)
  {
    RingIsSimple(shape, pubs);
    hide Simple, Plan.Ports, Values, Built, Rows, Elements, Plan.Ids;
    var rows := Rows(RingPlan(shape, pubs));
    assert |rows| == |pubs| by { RingRowCount(shape, pubs); }
    forall n | 0 <= n < |rows|
      ensures rows[n].id == pubs[n] && rows[n].id in g && Values(rows[n].ports) == g[rows[n].id]
    {
      RingRowPresents(shape, pubs, g, n);
    }
    forall a | a in g
      ensures Names(rows, a)
    {
      var n := BuiltKey(shape, pubs, g, a);
      assert rows[n].id == a;
    }
  }

  lemma RingRowCount(shape: Ring.Shape, pubs: seq<int>)
    requires |pubs| >= 2
    ensures |Rows(RingPlan(shape, pubs))| == |pubs|
  {
  }

  lemma RingRowPresents(shape: Ring.Shape, pubs: seq<int>, g: Graph, n: int)
    requires Built(shape, pubs, [], g) && Distinct(pubs) && |pubs| >= 2 && 0 <= n < |pubs|
    ensures var row := Rows(RingPlan(shape, pubs))[n];
            row.id == pubs[n] && row.id in g && Values(row.ports) == g[row.id]
  {
    hide Plan.Ports, Values, Built;
    BuiltRing(shape, pubs, g, n);
    RingValues(shape, pubs, n);
  }

  lemma BuiltKey(shape: Ring.Shape, pubs: seq<int>, g: Graph, a: int) returns (n: int)
    requires Built(shape, pubs, [], g) && a in g
    ensures 0 <= n < |pubs| && pubs[n] == a
  {
    hide RingIds, OwnedIds, Owns;
    assert a in Elements(pubs);
    n :| 0 <= n < |pubs| && pubs[n] == a;
  }

  lemma BuiltRing(shape: Ring.Shape, pubs: seq<int>, g: Graph, n: int)
    requires Built(shape, pubs, [], g) && 0 <= n < |pubs|
    ensures pubs[n] in g && g[pubs[n]] == RingIds(shape, pubs, n)
  {
    NoShare(pubs, n);
    hide RingIds, OwnedIds, Owns;
  }

  lemma NoShare(pubs: seq<int>, n: int)
    requires 0 <= n < |pubs|
    ensures OwnedIds(pubs, [], n) == {}
  {
  }

  lemma RingValues(shape: Ring.Shape, pubs: seq<int>, n: int)
    requires Distinct(pubs) && |pubs| >= 2 && 0 <= n < |pubs|
    ensures Values(RingPlan(shape, pubs).Ports(n)) == RingIds(shape, pubs, n)
  {
    hide Plan.Ports, Ring.Peers;
    RingPorts(shape, pubs, n);
    var peers := Ring.Peers(shape, |pubs|, n);
    var ports := RingPlan(shape, pubs).Ports(n);
    forall b | b in RingIds(shape, pubs, n)
      ensures b in Values(ports)
    {
      var j := RingIdsWithin(shape, pubs, n, b);
      RingRow(shape, pubs, n, j);
    }
    forall b | b in Values(ports)
      ensures b in RingIds(shape, pubs, n)
    {
      var p :| 0 <= p < |ports| && ports[p].Some? && ports[p].value == b;
      assert peers[p] in peers;
    }
  }
}
