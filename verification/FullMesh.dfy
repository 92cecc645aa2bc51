// The full-mesh strategy and the size of subnet it needs
// (uno/registry/deployment_strategy/fullmesh_deployment_strategy.py).
module FullMesh {
  import opened Prelude
  import opened PairedMap
  import opened LinkAllocation
  import opened Graphs

  function MeshGraph(peers: set<int>, private: set<int>): (g: Graph) {
    map a | a in peers :: set b | b in peers && b != a && (a !in private || b !in private)
  }

  lemma MeshIsMutual(peers: set<int>, private: set<int>)
    ensures Mutual(MeshGraph(peers, private))
    ensures NoPrivateEdges(MeshGraph(peers, private), private)
    ensures MeshGraph(peers, private).Keys == peers
  {
  }

  // One public cell is enough to connect everything.
  lemma MeshIsConnected(peers: set<int>, private: set<int>, hub: int)
    requires hub in peers && hub !in private
    ensures Connected(MeshGraph(peers, private), peers)
  {
    var g := MeshGraph(peers, private);
    forall a | a in peers
      ensures a == hub || (Step(g, a, hub) && Step(g, hub, a))
    {
    }
    hide MeshGraph, Reach;
    forall a, b | a in peers && b in peers
      ensures Reach(g, peers, a, b)
    {
      HubReach(g, peers, a, hub);
      HubReach(g, peers, b, hub);
      ReachTrans(g, peers, a, hub, b);
    }
  }

  // ----- Counting links -----

  ghost function AllPairs(s: set<int>): (r: set<Pair>) {
    set a, b | a in s && b in s && a < b :: (a, b)
  }

  ghost function Star(x: int, s: set<int>): (r: set<Pair>) {
    set y | y in s :: PairKey(x, y)
  }

  lemma {:induction false} StarSize(x: int, s: set<int>)
    requires x !in s
    ensures |Star(x, s)| == |s|
  {
    if s == {} {
      assert Star(x, s) == {};
    } else {
      var y := Witness(s);
      StarSize(x, s - {y});
      assert Star(x, s) == Star(x, s - {y}) + {PairKey(x, y)};
      assert PairKey(x, y) !in Star(x, s - {y});
    }
  }

  function Triangle(m: nat): (r: nat) {
    if m == 0 then 0 else Triangle(m - 1) + m - 1
  }

  lemma {:induction false} TriangleClosed(m: nat)
    ensures 2 * Triangle(m) == m * (m - 1)
  {
    if m > 0 {
      TriangleClosed(m - 1);
      assert m * (m - 1) == (m - 1) * (m - 2) + 2 * (m - 1);
    }
  }

  lemma {:induction false} AllPairsSize(s: set<int>)
    ensures |AllPairs(s)| == Triangle(|s|)
    decreases |s|
  {
    hide AllPairs, Star, Triangle;
    if s == {} {
      NoPairs();
    } else {
      var x := Witness(s);
      var t := s - {x};
      assert |s| == |t| + 1;
      AllPairsSize(t);
      StarSize(x, t);
      AllPairsStep(s, x);
      TriangleStep(|t|);
    }
  }

  lemma NoPairs()
    ensures |AllPairs({})| == Triangle(0)
  {
    assert AllPairs({}) == {};
  }

  lemma TriangleStep(m: nat)
    ensures Triangle(m + 1) == Triangle(m) + m
  {
  }

  lemma AllPairsStep(s: set<int>, x: int)
    requires x in s
    ensures AllPairs(s) == AllPairs(s - {x}) + Star(x, s - {x})
    ensures AllPairs(s - {x}) !! Star(x, s - {x})
  {
    forall k | k in AllPairs(s)
      ensures k in AllPairs(s - {x}) + Star(x, s - {x})
    {
      if k.0 == x {
        assert k == PairKey(x, k.1);
      } else if k.1 == x {
        assert k == PairKey(x, k.0);
      }
    }
  }

  // A full mesh has a link for every two cells that are not both private.
  lemma MeshLinks(peers: set<int>, private: set<int>)
    requires private <= peers
    ensures EdgePairs(MeshGraph(peers, private)) == AllPairs(peers) - AllPairs(private)
    ensures |EdgePairs(MeshGraph(peers, private))| == Triangle(|peers|) - Triangle(|private|)
  {
    var g := MeshGraph(peers, private);
    forall k
      ensures k in EdgePairs(g) <==> k in AllPairs(peers) && k !in AllPairs(private)
    {
      if k in AllPairs(peers) && k !in AllPairs(private) {
        assert k.0 in g && k.1 in g[k.0] && k == PairKey(k.0, k.1);
      }
    }
    assert AllPairs(private) <= AllPairs(peers);
    assert AllPairs(peers) == EdgePairs(g) + AllPairs(private);
    AllPairsSize(peers);
    AllPairsSize(private);
    assert EdgePairs(g) !! AllPairs(private);
    assert |EdgePairs(g) + AllPairs(private)| == |EdgePairs(g)| + |AllPairs(private)|;
  }

  // 10.255.192.0/20, the default backbone subnet.
  const DEFAULT_SUBNET: Network := Network(((10 * 256 + 255) * 256 + 192) * 256, 20)

  lemma DefaultCapacity()
    ensures DEFAULT_SUBNET.Valid() && Capacity(DEFAULT_SUBNET) == 2047
  {
    assert Pow2(12) == 4096;
    assert HostBitsClear(DEFAULT_SUBNET.base, 12);
  }

  // The links of an all-public full mesh fit in the default subnet exactly up to
  // 64 cells.
  lemma MeshFitsDefault(peers: set<int>)
    ensures DEFAULT_SUBNET.Valid()
    ensures |EdgePairs(MeshGraph(peers, {}))| <= Capacity(DEFAULT_SUBNET) <==> |peers| <= 64
  {
    MeshLinks(peers, {});
    DefaultCapacity();
    TriangleClosed(|peers|);
    SquareBound(|peers|);
  }

  lemma SquareBound(m: nat)
    ensures m <= 64 ==> m * (m - 1) <= 4032
    ensures m >= 65 ==> m * (m - 1) >= 4160
  {
    if m <= 64 {
      assert m * (m - 1) <= 64 * 63;
    } else {
      assert m * (m - 1) >= 65 * 64;
    }
  }
}
