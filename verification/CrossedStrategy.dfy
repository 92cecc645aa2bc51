// The crossed and circular strategies on public and private peers
// (uno/registry/deployment_strategy/crossed_deployment_strategy.py).
module CrossedStrategy {
  import opened Prelude
  import opened Plans
  import opened Partition
  import opened Graphs
  import Ring

  // The ring neighbours of the i-th public peer, as ids.
  ghost function RingIds(shape: Ring.Shape, pubs: seq<int>, i: int): (r: set<int>)
    requires 0 <= i < |pubs|
  {
    if |pubs| > 1 then set j | 0 <= j < |pubs| && j in Ring.Peers(shape, |pubs|, i) :: pubs[j] else {}
  }

  // Its private peers.
  ghost function OwnedIds(pubs: seq<int>, privs: seq<int>, i: int): (r: set<int>)
    requires 0 <= i < |pubs|
  {
    set k | 0 <= k < |privs| && Owns(pubs, privs, i, k) :: privs[k]
  }

  ghost predicate Owns(pubs: seq<int>, privs: seq<int>, i: nat, k: int)
    requires |pubs| > 0
  {
    Start(|privs|, |pubs|, i) <= k < Start(|privs|, |pubs|, i + 1)
  }

  // The graph the strategies are documented to build for one order of the peers.
  ghost predicate Built(shape: Ring.Shape, pubs: seq<int>, privs: seq<int>, g: Graph) {
    && |pubs| >= 1
    && g.Keys == Elements(pubs) + Elements(privs)
    && (forall i :: 0 <= i < |pubs| ==> g[pubs[i]] == RingIds(shape, pubs, i) + OwnedIds(pubs, privs, i))
    && (forall i, k :: 0 <= i < |pubs| && 0 <= k < |privs| && Owns(pubs, privs, i, k) ==> g[privs[k]] == {pubs[i]})
  }

  // ----- The loops of _generate_deployment -----

  method PublicPorts(shape: Ring.Shape, pubs: seq<int>, i: int) returns (ports: set<int>)
    requires 0 <= i < |pubs|
    ensures ports == RingIds(shape, pubs, i)
  {
    ports := {};
    if |pubs| > 1 {
      Ring.PeersAreSimple(shape, |pubs|, i);
      var peers := Ring.Peers(shape, |pubs|, i);
      hide Ring.Peers;
      var p := 0;
      while p < |peers|
        invariant 0 <= p <= |peers|
        invariant ports == set j | 0 <= j < |pubs| && j in peers[..p] :: pubs[j]
      {
        assert peers[..p + 1] == peers[..p] + [peers[p]];
        ports := ports + {pubs[peers[p]]};
        p := p + 1;
      }
      assert peers[..p] == peers;
    }
  }

  // The state after the first i public peers.
  ghost predicate PubsDone(shape: Ring.Shape, pubs: seq<int>, privs: seq<int>, i: int, g: Graph)
    requires 0 <= i <= |pubs|
  {
    forall j :: 0 <= j < i ==> pubs[j] in g && g[pubs[j]] == RingIds(shape, pubs, j) + OwnedIds(pubs, privs, j)
  }

  ghost predicate PrivsDone(pubs: seq<int>, privs: seq<int>, i: int, g: Graph)
    requires 0 <= i <= |pubs| && |pubs| > 0
  {
    forall j, k :: 0 <= j < i && 0 <= k < |privs| && Owns(pubs, privs, j, k) ==>
      privs[k] in g && g[privs[k]] == {pubs[j]}
  }

  ghost predicate KeysDone(pubs: seq<int>, privs: seq<int>, i: int, g: Graph)
    requires 0 <= i <= |pubs| && |pubs| > 0
  {
    && Start(|privs|, |pubs|, i) <= |privs|
    && g.Keys == Elements(pubs[..i]) + Elements(privs[..Start(|privs|, |pubs|, i)])
  }

  ghost predicate Partly(shape: Ring.Shape, pubs: seq<int>, privs: seq<int>, i: int, g: Graph)
    requires 0 <= i <= |pubs| && |pubs| > 0
  {
    KeysDone(pubs, privs, i, g) && PubsDone(shape, pubs, privs, i, g) && PrivsDone(pubs, privs, i, g)
  }

  // One round of the loop: the private peers of one public peer are attached.
  method AttachShare(g: Graph, pub: int, ring: set<int>, privs: seq<int>, from: nat, to: nat) returns (h: Graph)
    requires from <= to <= |privs| && Distinct(privs)
    requires pub !in privs && pub !in g
    requires forall k :: from <= k < to ==> privs[k] !in g
    ensures Attaches(g, pub, ring, privs, from, to, h)
  {
    h := g[pub := ring];
    var k := from;
    AttachesNone(g, pub, ring, privs, from);
    hide Attaches;
    while k < to
      invariant from <= k <= to
      invariant Attaches(g, pub, ring, privs, from, k, h)
    {
      assert pub in h by { HasPub(g, pub, ring, privs, from, k, h); }
      ghost var before := h;
      var had := if privs[k] in h then h[privs[k]] else {};
      h := h[pub := h[pub] + {privs[k]}];
      h := h[privs[k] := had + {pub}];
      NotYet(g, pub, ring, privs, from, k, before);
      AttachesOneMore(g, pub, ring, privs, from, k, before);
      k := k + 1;
    }
  }

  lemma AttachesNone(g: Graph, pub: int, ring: set<int>, privs: seq<int>, from: nat)
    requires from <= |privs| && pub !in g
    ensures Attaches(g, pub, ring, privs, from, from, g[pub := ring])
  {
    EmptySlice(privs, from);
    hide Elements;
  }

  lemma HasPub(g: Graph, pub: int, ring: set<int>, privs: seq<int>, from: nat, k: nat, h: Graph)
    requires from <= k < |privs| && Attaches(g, pub, ring, privs, from, k, h)
    ensures pub in h
  {
  }

  lemma NotYet(g: Graph, pub: int, ring: set<int>, privs: seq<int>, from: nat, k: nat, h: Graph)
    requires from <= k < |privs| && Distinct(privs) && pub !in privs && privs[k] !in g
    requires Attaches(g, pub, ring, privs, from, k, h)
    ensures pub in h && privs[k] !in h
  {
    SliceGrows(privs, from, k);
    hide Elements, Distinct;
  }

  lemma AttachesOneMore(g: Graph, pub: int, ring: set<int>, privs: seq<int>, from: nat, k: nat, h: Graph)
    requires from <= k < |privs| && pub !in g && pub in h && privs[k] !in h && pub !in privs
    requires Attaches(g, pub, ring, privs, from, k, h)
    ensures Attaches(g, pub, ring, privs, from, k + 1, h[pub := h[pub] + {privs[k]}][privs[k] := {pub}])
  {
    SliceGrows(privs, from, k);
    hide Elements;
    var u := h[pub := h[pub] + {privs[k]}][privs[k] := {pub}];
    forall j | from <= j < k
      ensures privs[j] in u && u[privs[j]] == {pub}
    {
      assert privs[j] in h && privs[j] in privs;
    }
  }

  lemma EmptySlice(privs: seq<int>, from: nat)
    requires from <= |privs|
    ensures Elements(privs[from..from]) == {}
  {
  }

  lemma SliceGrows(privs: seq<int>, from: nat, k: nat)
    requires from <= k < |privs|
    ensures Elements(privs[from..k + 1]) == Elements(privs[from..k]) + {privs[k]}
    ensures Distinct(privs) ==> privs[k] !in Elements(privs[from..k])
  {
    assert privs[from..k + 1] == privs[from..k] + [privs[k]];
  }

  lemma ShareIsSlice(pubs: seq<int>, privs: seq<int>, i: nat)
    requires i < |pubs|
    ensures Start(|privs|, |pubs|, i) <= Start(|privs|, |pubs|, i + 1) <= |privs|
    ensures OwnedIds(pubs, privs, i) ==
              Elements(privs[Start(|privs|, |pubs|, i)..Start(|privs|, |pubs|, i + 1)])
  {
    StartTotal(|privs|, |pubs|);
    StartGrows(|privs|, |pubs|, i, i + 1);
    StartGrows(|privs|, |pubs|, i + 1, |pubs|);
    hide Start;
    var from, to := Start(|privs|, |pubs|, i), Start(|privs|, |pubs|, i + 1);
    forall x | x in OwnedIds(pubs, privs, i)
      ensures x in privs[from..to]
    {
      var k :| 0 <= k < |privs| && Owns(pubs, privs, i, k) && privs[k] == x;
      assert privs[from..to][k - from] == x;
    }
    forall x | x in privs[from..to]
      ensures x in OwnedIds(pubs, privs, i)
    {
      var j :| 0 <= j < |privs[from..to]| && privs[from..to][j] == x;
      assert Owns(pubs, privs, i, j + from) && privs[j + from] == x;
    }
  }

  lemma PrefixSets(pubs: seq<int>, privs: seq<int>, i: int, from: int, to: int)
    requires 0 <= i < |pubs| && 0 <= from <= to <= |privs|
    ensures Elements(pubs[..i + 1]) == Elements(pubs[..i]) + {pubs[i]}
    ensures Elements(privs[..to]) == Elements(privs[..from]) + Elements(privs[from..to])
  {
    assert pubs[..i + 1] == pubs[..i] + [pubs[i]];
    assert privs[..to] == privs[..from] + privs[from..to];
  }

  // What AttachShare promises about its result.
  ghost predicate Attaches(g: Graph, pub: int, ring: set<int>, privs: seq<int>, from: int, to: int, h: Graph)
    requires 0 <= from <= to <= |privs|
  {
    && h.Keys == g.Keys + {pub} + Elements(privs[from..to])
    && h[pub] == ring + Elements(privs[from..to])
    && (forall k :: from <= k < to ==> privs[k] in h && h[privs[k]] == {pub})
    && (forall a :: a in g ==> a in h && h[a] == g[a])
  }

  lemma Attached(shape: Ring.Shape, pubs: seq<int>, privs: seq<int>, i: nat, g: Graph, h: Graph)
    requires i < |pubs| && Partly(shape, pubs, privs, i, g)
    requires Start(|privs|, |pubs|, i) <= Start(|privs|, |pubs|, i + 1) <= |privs|
    requires Attaches(g, pubs[i], RingIds(shape, pubs, i), privs,
                      Start(|privs|, |pubs|, i), Start(|privs|, |pubs|, i + 1), h)
    ensures Partly(shape, pubs, privs, i + 1, h)
  {
    hide Start, RingIds, OwnedIds, Attaches, KeysDone, PubsDone, PrivsDone, Elements;
    AttachedKeys(shape, pubs, privs, i, g, h);
    AttachedPubs(shape, pubs, privs, i, g, h);
    AttachedPrivs(shape, pubs, privs, i, g, h);
  }

  lemma AttachedKeys(shape: Ring.Shape, pubs: seq<int>, privs: seq<int>, i: nat, g: Graph, h: Graph)
    requires i < |pubs| && KeysDone(pubs, privs, i, g)
    requires Start(|privs|, |pubs|, i) <= Start(|privs|, |pubs|, i + 1) <= |privs|
    requires Attaches(g, pubs[i], RingIds(shape, pubs, i), privs,
                      Start(|privs|, |pubs|, i), Start(|privs|, |pubs|, i + 1), h)
    ensures KeysDone(pubs, privs, i + 1, h)
  {
    hide Start, RingIds, Elements;
    PrefixSets(pubs, privs, i, Start(|privs|, |pubs|, i), Start(|privs|, |pubs|, i + 1));
  }

  lemma AttachedPubs(shape: Ring.Shape, pubs: seq<int>, privs: seq<int>, i: nat, g: Graph, h: Graph)
    requires i < |pubs| && PubsDone(shape, pubs, privs, i, g)
    requires Start(|privs|, |pubs|, i) <= Start(|privs|, |pubs|, i + 1) <= |privs|
    requires Attaches(g, pubs[i], RingIds(shape, pubs, i), privs,
                      Start(|privs|, |pubs|, i), Start(|privs|, |pubs|, i + 1), h)
    ensures PubsDone(shape, pubs, privs, i + 1, h)
  {
    ShareIsSlice(pubs, privs, i);
    assert forall a :: a in g ==> a in h && h[a] == g[a];
    hide Start, RingIds, Elements, OwnedIds;
    forall j | 0 <= j < i
      ensures pubs[j] in h && h[pubs[j]] == RingIds(shape, pubs, j) + OwnedIds(pubs, privs, j)
    {
      assert pubs[j] in g && h[pubs[j]] == g[pubs[j]];
    }
  }

  lemma AttachedPrivs(shape: Ring.Shape, pubs: seq<int>, privs: seq<int>, i: nat, g: Graph, h: Graph)
    requires i < |pubs| && PrivsDone(pubs, privs, i, g)
    requires Start(|privs|, |pubs|, i) <= Start(|privs|, |pubs|, i + 1) <= |privs|
    requires Attaches(g, pubs[i], RingIds(shape, pubs, i), privs,
                      Start(|privs|, |pubs|, i), Start(|privs|, |pubs|, i + 1), h)
    ensures PrivsDone(pubs, privs, i + 1, h)
  {
    var from, to := Start(|privs|, |pubs|, i), Start(|privs|, |pubs|, i + 1);
    assert forall a :: a in g ==> a in h && h[a] == g[a];
    assert forall k :: from <= k < to ==> privs[k] in h && h[privs[k]] == {pubs[i]};
    hide Start, RingIds, Elements;
    forall j, k | 0 <= j < i + 1 && 0 <= k < |privs| && Owns(pubs, privs, j, k)
      ensures privs[k] in h && h[privs[k]] == {pubs[j]}
    {
      if j < i {
        assert privs[k] in g && g[privs[k]] == {pubs[j]};
        assert h[privs[k]] == g[privs[k]];
      }
    }
  }

  lemma Fresh(pubs: seq<int>, privs: seq<int>, i: nat, from: nat)
    requires Distinct(pubs + privs) && i < |pubs| && from <= |privs|
    ensures Distinct(privs) && Distinct(pubs) && pubs[i] !in privs
    ensures pubs[i] !in Elements(pubs[..i]) + Elements(privs[..from])
    ensures forall k :: from <= k < |privs| ==> privs[k] !in Elements(pubs[..i]) + Elements(privs[..from])
  {
    var all := pubs + privs;
    assert forall j :: 0 <= j < |pubs| ==> all[j] == pubs[j];
    assert forall k :: 0 <= k < |privs| ==> all[|pubs| + k] == privs[k];
  }

  lemma Ready(shape: Ring.Shape, pubs: seq<int>, privs: seq<int>, i: nat, g: Graph)
    requires i < |pubs| && Distinct(pubs + privs) && Partly(shape, pubs, privs, i, g)
    ensures Start(|privs|, |pubs|, i) <= Start(|privs|, |pubs|, i + 1) <= |privs|
    ensures Distinct(privs) && pubs[i] !in privs && pubs[i] !in g
    ensures forall k :: Start(|privs|, |pubs|, i) <= k < |privs| ==> privs[k] !in g
  {
    ShareIsSlice(pubs, privs, i);
    hide PubsDone, PrivsDone, Elements;
    Fresh(pubs, privs, i, Start(|privs|, |pubs|, i));
  }

  method AssignPorts(shape: Ring.Shape, pubs: seq<int>, privs: seq<int>) returns (g: Graph)
    requires |pubs| >= 1 && Distinct(pubs + privs)
    ensures Built(shape, pubs, privs, g)
  {
    hide Partly, Built, Attaches;
    var sizes := PartitionSizes(|privs|, |pubs|);
    g := map[];
    var privI := 0;
    var i := 0;
    Nothing(shape, pubs, privs);
    while i < |pubs|
      invariant 0 <= i <= |pubs|
      invariant privI == Start(|privs|, |pubs|, i)
      invariant Partly(shape, pubs, privs, i, g)
    {
      var ring := PublicPorts(shape, pubs, i);
      Ready(shape, pubs, privs, i, g);
      var h := AttachShare(g, pubs[i], ring, privs, privI, privI + sizes[i]);
      Attached(shape, pubs, privs, i, g, h);
      g := h;
      privI := privI + sizes[i];
      i := i + 1;
    }
    Complete(shape, pubs, privs, g);
  }

  lemma Nothing(shape: Ring.Shape, pubs: seq<int>, privs: seq<int>)
    requires |pubs| >= 1
    ensures Partly(shape, pubs, privs, 0, map[])
  {
  }

  lemma Complete(shape: Ring.Shape, pubs: seq<int>, privs: seq<int>, g: Graph)
    requires |pubs| >= 1 && Partly(shape, pubs, privs, |pubs|, g)
    ensures Built(shape, pubs, privs, g)
  {
    StartTotal(|privs|, |pubs|);
    hide Start, RingIds, OwnedIds;
    assert pubs[..|pubs|] == pubs && privs[..|privs|] == privs;
  }
}
