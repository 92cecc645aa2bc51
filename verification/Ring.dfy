// The circular buffer of public peers behind the crossed and the circular
// strategy (uno/registry/deployment_strategy/crossed_deployment_strategy.py and
// circular_deployment_strategy.py).  Peers are positions 0..n-1 of the buffer.
module Ring {
  import opened Prelude
  import opened PairedMap

  datatype Shape = Crossed | Circular

  function PeerRight(i: int, n: int): (r: int)
    requires 0 <= i < n
    ensures r == if i + 1 == n then 0 else i + 1
  {
    (i + 1) % n
  }

  function PeerLeft(i: int, n: int): (r: int)
    requires 0 <= i < n
  {
    if i == 0 then n - 1 else i - 1
  }

  function PeerAcross(i: int, n: int): (r: int)
    requires 0 <= i < n
    ensures i < n / 2 ==> r == i + n / 2
  {
    var offset := n / 2;
    if i <= offset - 1 then (i + offset) % n else i - offset
  }

  // peer_peers_count of the two strategies.
  function PeersCount(shape: Shape, n: int, i: int): (r: nat)
    requires 2 <= n
  {
    if n == 2 then 1
    else if shape.Circular? || n == 3 then 2
    else if !(n % 2 > 0) || !(i == n - 1) then 3
    else 2
  }

  function Generator(port: nat, i: int, n: int): (r: int)
    requires port < 3 && 0 <= i < n
  {
    if port == 0 then PeerLeft(i, n)
    else if port == 1 then PeerRight(i, n)
    else PeerAcross(i, n)
  }

  // The neighbours of position i, in port order.
  function Peers(shape: Shape, n: int, i: int): (r: seq<int>)
    requires 2 <= n && 0 <= i < n
    ensures |r| == PeersCount(shape, n, i)
    ensures forall p :: 0 <= p < |r| ==> r[p] == Generator(p, i, n)
  {
    seq(PeersCount(shape, n, i), p requires 0 <= p < 3 => Generator(p, i, n))
  }

  // Membership without the ports: a ring edge or, in a crossed ring of at least
  // four peers, the opposite peer.
  ghost predicate Linked(shape: Shape, n: int, i: int, j: int)
    requires 0 <= i < n && 0 <= j < n
  {
    || j == PeerRight(i, n)
    || i == PeerRight(j, n)
    || (shape.Crossed? && n >= 4 && i < n / 2 && j == i + n / 2)
    || (shape.Crossed? && n >= 4 && j < n / 2 && i == j + n / 2)
  }

  // Every peer list stays inside the buffer, never names the peer itself nor any
  // peer twice.
  lemma PeersAreSimple(shape: Shape, n: int, i: int)
    requires 2 <= n && 0 <= i < n
    ensures forall p :: 0 <= p < |Peers(shape, n, i)| ==>
              0 <= Peers(shape, n, i)[p] < n && Peers(shape, n, i)[p] != i
    ensures Distinct(Peers(shape, n, i))
  {
    hide PeerRight;
  }

  // The list-based code computes exactly the symmetric relation Linked.
  lemma PeersAreLinked(shape: Shape, n: int, i: int, j: int)
    requires 2 <= n && 0 <= i < n && 0 <= j < n
    ensures j in Peers(shape, n, i) <==> Linked(shape, n, i, j)
  {
    hide PeerRight;
    var r := Peers(shape, n, i);
    assert r[0] == Generator(0, i, n);
    if |r| >= 2 {
      assert r[1] == Generator(1, i, n);
    }
    if |r| >= 3 {
      assert r[2] == Generator(2, i, n);
    }
  }

  lemma PeersAreSymmetric(shape: Shape, n: int, i: int, j: int)
    requires 2 <= n && 0 <= i < n && 0 <= j < n
    ensures j in Peers(shape, n, i) <==> i in Peers(shape, n, j)
  {
    hide Peers;
    PeersAreLinked(shape, n, i, j);
    PeersAreLinked(shape, n, j, i);
  }

  // The documented degrees.
  lemma Degrees(shape: Shape, n: int, i: int)
    requires 2 <= n && 0 <= i < n
    ensures |Elements(Peers(shape, n, i))| ==
              if n == 2 then 1
              else if shape.Circular? || n == 3 || (n % 2 == 1 && i == n - 1) then 2
              else 3
  {
    PeersAreSimple(shape, n, i);
    DistinctSize(Peers(shape, n, i));
  }

  // The undirected links.
  ghost function Links(shape: Shape, n: int): (r: set<Pair>)
    requires 2 <= n
  {
    set i, j | i in Range(n) && j in Range(n) && j in Peers(shape, n, i) :: PairKey(i, j)
  }

  function RingEdges(n: int): (r: seq<Pair>)
    requires 0 <= n
  {
    seq(n, i requires 0 <= i < n => PairKey(i, PeerRight(i, n)))
  }

  function CrossEdges(n: int): (r: seq<Pair>)
    requires 0 <= n
  {
    seq(n / 2, i => (i, i + n / 2))
  }

  ghost function Edges(shape: Shape, n: int): (r: set<Pair>)
    requires 0 <= n
  {
    Elements(RingEdges(n)) + (if shape.Crossed? && n >= 4 then Elements(CrossEdges(n)) else {})
  }

  lemma LinkIsEdge(shape: Shape, n: int, i: int, j: int)
    requires 3 <= n && 0 <= i < n && 0 <= j < n && j in Peers(shape, n, i)
    ensures PairKey(i, j) in Edges(shape, n)
  {
    hide Peers, PeerRight;
    PeersAreLinked(shape, n, i, j);
    assert PairKey(i, j) == PairKey(j, i);
    if j == PeerRight(i, n) {
      assert RingEdges(n)[i] == PairKey(i, j);
    } else if i == PeerRight(j, n) {
      assert RingEdges(n)[j] == PairKey(i, j);
    } else if i < n / 2 && j == i + n / 2 {
      assert CrossEdges(n)[i] == PairKey(i, j);
    } else {
      assert CrossEdges(n)[j] == PairKey(i, j);
    }
  }

  lemma EdgesAreLinks(shape: Shape, n: int)
    requires 3 <= n
    ensures Edges(shape, n) <= Links(shape, n)
  {
    hide Peers, PeerRight;
    forall i | 0 <= i < n
      ensures RingEdges(n)[i] in Links(shape, n)
    {
      var j := PeerRight(i, n);
      PeersAreLinked(shape, n, i, j);
      assert i in Range(n) && j in Range(n);
    }
    if shape.Crossed? && n >= 4 {
      forall i | 0 <= i < n / 2
        ensures CrossEdges(n)[i] in Links(shape, n)
      {
        var j := i + n / 2;
        PeersAreLinked(shape, n, i, j);
        assert i in Range(n) && j in Range(n);
        assert PairKey(i, j) == (i, j);
      }
    }
  }

  lemma LinksAreEdges(shape: Shape, n: int)
    requires 3 <= n
    ensures Links(shape, n) == Edges(shape, n)
  {
    hide Peers, Edges;
    forall k | k in Links(shape, n)
      ensures k in Edges(shape, n)
    {
      var i, j :| i in Range(n) && j in Range(n) && j in Peers(shape, n, i) && k == PairKey(i, j);
      LinkIsEdge(shape, n, i, j);
    }
    EdgesAreLinks(shape, n);
  }

  // n ring links, and one link across for every pair of opposite peers.
  lemma LinkCount(shape: Shape, n: int)
    requires 2 <= n
    ensures |Links(shape, n)| ==
              if n == 2 then 1 else if shape.Crossed? && n >= 4 then n + n / 2 else n
  {
    if n == 2 {
      TwoPeers(shape);
    } else {
      LinksAreEdges(shape, n);
      EdgesAreDistinct(n);
      DistinctSize(RingEdges(n));
      DistinctSize(CrossEdges(n));
    }
  }

  lemma TwoPeers(shape: Shape)
    ensures |Links(shape, 2)| == 1
  {
    var ls := Links(shape, 2);
    PeersAreLinked(shape, 2, 0, 1);
    assert 0 in Range(2) && 1 in Range(2);
    assert PairKey(0, 1) in ls;
    forall k | k in ls
      ensures k == (0, 1)
    {
      var i, j :| i in Range(2) && j in Range(2) && j in Peers(shape, 2, i) && k == PairKey(i, j);
      PeersAreSimple(shape, 2, i);
    }
    assert ls == {(0, 1)};
  }

  lemma EdgesAreDistinct(n: int)
    requires 3 <= n
    ensures Distinct(RingEdges(n)) && Distinct(CrossEdges(n))
    ensures n >= 4 ==> Elements(RingEdges(n)) !! Elements(CrossEdges(n))
  {
    hide PeerRight;
    if n >= 4 {
      forall i, j | 0 <= i < n && 0 <= j < n / 2
        ensures RingEdges(n)[i] != CrossEdges(n)[j]
      {
      }
    }
  }
}
