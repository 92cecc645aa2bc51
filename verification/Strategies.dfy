// The _generate_deployment of every strategy, and deploy() on top of them
// (uno/registry/deployment_strategy/).  Shuffles and samples are arbitrary.
module Strategies {
  import opened Prelude
  import opened PairedMap
  import opened LinkAllocation
  import opened Plans
  import opened Graphs
  import opened Deploy
  import Ring
  import CrossedStrategy
  import Backbone
  import Partition
  import FullMesh
  import RandomGraph
  import RandomRuns
  import Isolation

  datatype Kind = Crossed | Circular | FullMesh | Random

  const MAX_TRIES: nat := 100000

  // A usable plan over exactly the given peers that presents the graph g, with
  // every link announced by both ends and none between two private peers.
  ghost predicate Backs(plan: Plan, peers: set<int>, private: set<int>, g: Graph) {
    && plan.Usable()
    && Simple(Rows(plan))
    && Presents(Rows(plan), g)
    && Mutual(g)
    && g.Keys == peers
    && NoPrivateEdges(g, private)
  }

  // The documented shape of the crossed and circular backbones, for some order
  // of the public and of the private peers.
  ghost predicate IsRingBackbone(shape: Ring.Shape, peers: set<int>, private: set<int>, g: Graph) {
    exists pubs, privs ::
      Enumerates(pubs, peers - private) && Enumerates(privs, private) && CrossedStrategy.Built(shape, pubs, privs, g)
  }

  // The documented number of links between public cells: of a crossed ring, three for all
  // or, if their number is odd, two for one of them.
  ghost predicate DocumentedDegree(shape: Ring.Shape, public: nat, degree: nat) {
    if public <= 2 then degree == public - 1
    else if shape.Circular? || public == 3 then degree == 2
    else degree == 3 || (public % 2 == 1 && degree == 2)
  }

  // What the documented shape is worth: every private cell has one link, to a
  // public cell, and these are divided evenly; public cells have the documented number of
  // links among themselves; the links are counted; and with three public cells no single
  // public link or public cell is needed to keep the (other) public cells connected.
  lemma RingBackboneGuarantees(shape: Ring.Shape, peers: set<int>, private: set<int>, g: Graph)
    requires private <= peers && IsRingBackbone(shape, peers, private, g)
    ensures forall v :: v in private ==> v in g && |g[v]| == 1 && g[v] <= peers - private
    ensures |EdgePairs(g)| == Backbone.RingLinkCount(shape, |peers - private|) + |private|
    ensures forall x :: x in peers - private ==>
              x in g && DocumentedDegree(shape, |peers - private|, |g[x] * (peers - private)|)
    ensures forall x, y :: x in peers - private && y in peers - private ==>
              -1 <= |g[x] * private| - |g[y] * private| <= 1
    ensures |peers - private| >= 3 ==>
              forall x, y :: x in peers - private && y in peers - private && x != y ==>
                Connected(Cut(g, x, y), peers - private) && Connected(g, peers - private - {x})
  {
    var public := peers - private;
    hide Connected, EdgePairs, Cut, CrossedStrategy.Built;
    var pubs, privs :| Enumerates(pubs, public) && Enumerates(privs, private) &&
                       CrossedStrategy.Built(shape, pubs, privs, g);
    JoinOrders(pubs, privs, public, private);
    EnumerationSize(pubs, public);
    EnumerationSize(privs, private);
    Backbone.BuiltLinkCount(shape, pubs, privs, g);
    var hub := Backbone.Hubs(shape, pubs, privs, g);
    forall v | v in private
      ensures v in g && |g[v]| == 1 && g[v] <= public
    {
      assert v in hub;
      assert hub[v] in public && g[v] == {hub[v]};
    }
    PublicDegrees(shape, pubs, privs, g);
    if |public| >= 3 {
      forall x, y | x in public && y in public && x != y
        ensures Connected(Cut(g, x, y), public) && Connected(g, public - {x})
      {
        assert x in Elements(pubs) && y in Elements(pubs);
        var i :| 0 <= i < |pubs| && pubs[i] == x;
        var j :| 0 <= j < |pubs| && pubs[j] == y;
        Backbone.SurvivesLinkLoss(shape, pubs, privs, g, i, j);
        Backbone.SurvivesCellLoss(shape, pubs, privs, g, i);
      }
    }
  }

  lemma PublicDegrees(shape: Ring.Shape, pubs: seq<int>, privs: seq<int>, g: Graph)
    requires CrossedStrategy.Built(shape, pubs, privs, g) && Distinct(pubs + privs)
    ensures forall x :: x in Elements(pubs) ==> x in g && DocumentedDegree(shape, |pubs|, |g[x] * Elements(pubs)|)
    ensures forall x, y :: x in Elements(pubs) && y in Elements(pubs) ==>
              -1 <= |g[x] * Elements(privs)| - |g[y] * Elements(privs)| <= 1
  {
    forall x, y | x in Elements(pubs) && y in Elements(pubs)
      ensures x in g && y in g && DocumentedDegree(shape, |pubs|, |g[x] * Elements(pubs)|)
      ensures -1 <= |g[x] * Elements(privs)| - |g[y] * Elements(privs)| <= 1
    {
      var i :| 0 <= i < |pubs| && pubs[i] == x;
      var j :| 0 <= j < |pubs| && pubs[j] == y;
      Backbone.PublicParts(shape, pubs, privs, g, i);
      Backbone.PublicParts(shape, pubs, privs, g, j);
      hide CrossedStrategy.RingIds, CrossedStrategy.OwnedIds;
      Partition.SharesAreEven(|privs|, |pubs|, i, j);
    }
  }

  // static_deployment: the graph listed in any order.
  method ListGraph(g: Graph) returns (adjacency: seq<(int, seq<int>)>)
    ensures Listing(adjacency, g)
  {
    var ids := Enumerate(g.Keys);
    adjacency := [];
    var n := 0;
    while n < |ids|
      invariant 0 <= n <= |ids| && |adjacency| == n
      invariant forall m :: 0 <= m < n ==>
                  adjacency[m].0 == ids[m] && ids[m] in g && Enumerates(adjacency[m].1, g[ids[m]])
    {
      assert ids[n] in Elements(ids);
      var row := Enumerate(g[ids[n]]);
      adjacency := adjacency + [(ids[n], row)];
      n := n + 1;
    }
    forall a | a in g
      ensures exists m :: 0 <= m < |adjacency| && adjacency[m].0 == a
    {
      assert a in Elements(ids);
      var m :| 0 <= m < |ids| && ids[m] == a;
      assert adjacency[m].0 == a;
    }
  }

  method StaticFrom(g: Graph, peers: set<int>, private: set<int>) returns (plan: Plan)
    requires Mutual(g) && g.Keys == peers && NoPrivateEdges(g, private)
    ensures Backs(plan, peers, private, g)
  {
    var adjacency := ListGraph(g);
    ListingPresents(adjacency, g);
    hide Listing, Simple, Presents, Mutual, NoPrivateEdges;
    plan := StaticPlan(adjacency);
  }

  lemma JoinOrders(pubs: seq<int>, privs: seq<int>, public: set<int>, private: set<int>)
    requires Enumerates(pubs, public) && Enumerates(privs, private) && public !! private
    ensures Distinct(pubs + privs)
  {
    forall i, k | 0 <= i < |pubs| && 0 <= k < |privs|
      ensures pubs[i] != privs[k]
    {
      assert pubs[i] in Elements(pubs) && privs[k] in Elements(privs);
    }
  }

  // Without private peers the ring is handed over as it is, and the ports assigned
  // here only describe its graph.
  method CrossedPlan(shape: Ring.Shape, peers: set<int>, private: set<int>) returns (plan: Plan, ghost g: Graph)
    requires private <= peers && peers - private != {}
    ensures Backs(plan, peers, private, g)
    ensures IsRingBackbone(shape, peers, private, g)
    ensures Connected(g, peers)
  {
    var public := peers - private;
    var pubs := Enumerate(public);
    var privs := Enumerate(private);
    EnumerationSize(pubs, public);
    EnumerationSize(privs, private);
    JoinOrders(pubs, privs, public, private);
    var ports := CrossedStrategy.AssignPorts(shape, pubs, privs);
    g := ports;
    assert g.Keys == peers;
    Backbone.BuiltIsMutual(shape, pubs, privs, g);
    Backbone.AllConnected(shape, pubs, privs, g);
    if |pubs| > 1 && private == {} {
      assert privs == [];
      assert pubs + privs == pubs;
      Backbone.RingPresents(shape, pubs, g);
      plan := RingPlan(shape, pubs);
    } else {
      plan := StaticFrom(ports, peers, private);
    }
  }

  method MeshPlan(peers: set<int>, private: set<int>) returns (plan: Plan, ghost g: Graph)
    requires private <= peers && peers - private != {}
    ensures g == FullMesh.MeshGraph(peers, private)
    ensures Backs(plan, peers, private, FullMesh.MeshGraph(peers, private))
    ensures Connected(g, peers)
  {
    hide Mutual, NoPrivateEdges, FullMesh.MeshGraph, Connected, Backs;
    var mesh := FullMesh.MeshGraph(peers, private);
    g := mesh;
    FullMesh.MeshIsMutual(peers, private);
    var hub := Witness(peers - private);
    FullMesh.MeshIsConnected(peers, private, hub);
    plan := StaticFrom(mesh, peers, private);
  }

  // A graph that some run of the random strategy returns.
  ghost predicate RandomlyDrawn(peers: set<int>, private: set<int>, g: Graph)
    requires private <= peers
  {
    exists trails, stop ::
      RandomRuns.Run(Isolation.StrategySetup(peers, private), MAX_TRIES, trails, Ok(stop)) &&
      g == RandomRuns.After(Isolation.StrategySetup(peers, private), trails)
  }

  // The exact condition under which the random strategy connects all cells whatever
  // is drawn: it fails for three or more public cells with as many private cells, or
  // one more.
  lemma RandomConnectsIff(peers: set<int>, private: set<int>)
    requires private <= peers && peers - private != {}
    ensures (forall g :: RandomlyDrawn(peers, private, g) ==> Connected(g, peers)) <==>
            !Isolation.AtRisk(|peers - private|, |private|)
  {
    var s := Isolation.StrategySetup(peers, private);
    Isolation.ConnectsIff(peers, private, MAX_TRIES);
    hide Connected, RandomRuns.Run, RandomRuns.After, Isolation.StrategySetup;
    if Isolation.EveryRunConnects(s, MAX_TRIES) {
      forall g | RandomlyDrawn(peers, private, g)
        ensures Connected(g, peers)
      {
        SetupPeers(peers, private);
      }
    } else {
      var trails, r :| RandomRuns.Run(s, MAX_TRIES, trails, r) && r.Ok? &&
                       !Connected(RandomRuns.After(s, trails), s.peers);
      SetupPeers(peers, private);
      assert r == Ok(r.value);
      assert RandomlyDrawn(peers, private, RandomRuns.After(s, trails));
    }
  }

  lemma SetupPeers(peers: set<int>, private: set<int>)
    requires private <= peers
    ensures Isolation.StrategySetup(peers, private).peers == peers
  {
  }

  method RandomPlan(peers: set<int>, private: set<int>) returns (r: Result<Plan>, ghost g: Graph)
    requires private <= peers && peers - private != {}
    ensures r.Ok? ==> Backs(r.value, peers, private, g) && RandomlyDrawn(peers, private, g)
    ensures r.Ok? ==> (Connected(g, peers) <==> RandomRuns.NoneIsolated(g, peers))
    ensures r.Ok? && !Isolation.AtRisk(|peers - private|, |private|) ==> Connected(g, peers)
    ensures r.Err? ==> r.error == GenerationFailed && |private| >= 2
  {
    hide Mutual, NoPrivateEdges, Connected, Backs, RandomRuns.NoneIsolated, RandomRuns.Run, RandomRuns.After,
         RandomRuns.AllHave, Isolation.AtRisk, RandomRuns.Setup.AlwaysConnects;
    Isolation.SetupIsValid(peers, private);
    hide RandomRuns.ChooseThresholds;
    var limits := RandomRuns.ChooseThresholds(|peers - private|, |private|);
    var builder := new RandomGraph.Builder(peers, private, limits);
    ghost var trails;
    var stop;
    stop, trails := builder.GenerateEdges(MAX_TRIES);
    g := builder.edges;
    assert builder.Config() == Isolation.StrategySetup(peers, private);
    if stop.Err? {
      RandomRuns.RunDegrees(builder.Config(), MAX_TRIES, trails, stop);
      Isolation.CanFailIff(peers, private, MAX_TRIES);
      return Err(stop.error), g;
    }
    assert stop == Ok(stop.value);
    var plan := StaticFrom(builder.edges, peers, private);
    r := Ok(plan);
  }

  // The graph that a deployment of a strategy follows: private cells are never linked to
  // each other, and the shape and connectivity are what the strategy promises.
  ghost predicate Promised(kind: Kind, peers: set<int>, private: set<int>, g: Graph)
    requires private <= peers
  {
    && g.Keys == peers && Mutual(g) && NoPrivateEdges(g, private)
    && (kind.Crossed? ==> IsRingBackbone(Ring.Crossed, peers, private, g))
    && (kind.Circular? ==> IsRingBackbone(Ring.Circular, peers, private, g))
    && (kind.FullMesh? ==> g == FullMesh.MeshGraph(peers, private))
    && (kind.Random? ==> RandomlyDrawn(peers, private, g))
    && (Connected(g, peers) <==> RandomRuns.NoneIsolated(g, peers))
    && ((kind.Random? ==> !Isolation.AtRisk(|peers - private|, |private|)) ==> Connected(g, peers))
  }

  // The number of links of a strategy that leaves nothing to chance, by the counts alone.
  function LinksNeeded(kind: Kind, public: nat, private: nat): (r: int)
    requires !kind.Random?
  {
    match kind
    case Crossed => Backbone.RingLinkCount(Ring.Crossed, public) + private
    case Circular => Backbone.RingLinkCount(Ring.Circular, public) + private
    case FullMesh => FullMesh.Triangle(public + private) - FullMesh.Triangle(private)
  }

  lemma PromisedLinks(kind: Kind, peers: set<int>, private: set<int>, g: Graph)
    requires private <= peers && Promised(kind, peers, private, g) && !kind.Random?
    ensures |EdgePairs(g)| == LinksNeeded(kind, |peers - private|, |private|)
  {
    hide Connected, Mutual, NoPrivateEdges, IsRingBackbone, EdgePairs, FullMesh.MeshGraph, FullMesh.Triangle,
         Backbone.RingLinkCount, RandomRuns.NoneIsolated, RandomlyDrawn, Isolation.AtRisk;
    match kind {
      case Crossed =>
        RingLinks(Ring.Crossed, peers, private, g);
      case Circular =>
        RingLinks(Ring.Circular, peers, private, g);
      case FullMesh =>
        MeshLinksByCount(peers, private);
    }
  }

  lemma RingLinks(shape: Ring.Shape, peers: set<int>, private: set<int>, g: Graph)
    requires private <= peers && IsRingBackbone(shape, peers, private, g)
    ensures |EdgePairs(g)| == Backbone.RingLinkCount(shape, |peers - private|) + |private|
  {
    hide *;
    RingBackboneGuarantees(shape, peers, private, g);
  }

  lemma MeshLinksByCount(peers: set<int>, private: set<int>)
    requires private <= peers
    ensures |EdgePairs(FullMesh.MeshGraph(peers, private))| ==
              FullMesh.Triangle(|peers - private| + |private|) - FullMesh.Triangle(|private|)
  {
    hide EdgePairs, FullMesh.MeshGraph, FullMesh.Triangle;
    FullMesh.MeshLinks(peers, private);
    assert peers == (peers - private) + private;
    assert |peers| == |peers - private| + |private|;
  }

  method GeneratePlan(kind: Kind, peers: set<int>, private: set<int>) returns (r: Result<Plan>, ghost g: Graph)
    requires private <= peers && peers - private != {}
    ensures r.Ok? ==> Backs(r.value, peers, private, g) && Promised(kind, peers, private, g)
    ensures r.Err? ==> kind.Random? && r.error == GenerationFailed && |private| >= 2
  {
    hide Connected, IsRingBackbone, FullMesh.MeshGraph, RandomRuns.NoneIsolated, RandomlyDrawn,
         Isolation.AtRisk, Mutual, NoPrivateEdges, Simple, Presents, Rows;
    var plan: Plan;
    match kind {
      case Crossed =>
        plan, g := CrossedPlan(Ring.Crossed, peers, private);
      case Circular =>
        plan, g := CrossedPlan(Ring.Circular, peers, private);
      case FullMesh =>
        plan, g := MeshPlan(peers, private);
      case Random =>
        r, g := RandomPlan(peers, private);
        return;
    }
    assert RandomRuns.NoneIsolated(g, peers) by { ConnectedHasNoIsolated(g, peers); }
    r := Ok(plan);
  }

  lemma ConnectedHasNoIsolated(g: Graph, peers: set<int>)
    requires Connected(g, peers)
    ensures RandomRuns.NoneIsolated(g, peers)
  {
    hide Connected;
    if |peers| > 1 {
      forall p | p in peers
        ensures p in g && g[p] != {}
      {
        RandomRuns.Leaves(g, peers, p);
      }
    }
  }

  // deploy(): without any public peer the deployment is empty; otherwise the
  // generated plan is deployed, which works exactly when its links fit.  For every
  // strategy but the random one their number is known beforehand.
  method DeployStrategy(kind: Kind, peers: set<int>, private: set<int>, net: LinkAllocator)
    returns (r: Result<LinksMap>, ghost plan: Plan, ghost g: Graph)
    requires private <= peers
    requires net.subnet.Valid() && Inv(net.View()) && Regular(net.View()) && net.links == map[]
    modifies net
    ensures r.Ok? && peers - private == {} ==> r.value == map[]
    ensures r.Ok? && peers - private != {} ==>
              && Backs(plan, peers, private, g) && Promised(kind, peers, private, g)
              && Inv(net.View())
              && net.links.Keys == LinkPairs(Rows(plan)) == EdgePairs(g)
              && r.value == Table(Rows(plan), net.links)
              && |EdgePairs(g)| <= Capacity(net.subnet)
    ensures r.Err? ==> peers - private != {} && Failure(kind, peers, private, Capacity(net.subnet), r.error, g)
    ensures !kind.Random? ==>
              (r.Ok? <==> peers - private == {} ||
                          LinksNeeded(kind, |peers - private|, |private|) <= Capacity(net.subnet))
  {
    hide Inv, Regular, Network.Valid, Simple, Presents, Mutual, NoPrivateEdges, Capacity, LinkPairs, EdgePairs,
         LinkAllocator.View, Rows, Table, Promised, LinksNeeded;
    plan, g := NoPlan, map[];
    if peers - private == {} {
      return Ok(map[]), plan, g;
    }
    var generated;
    generated, g := GeneratePlan(kind, peers, private);
    if generated.Err? {
      return Err(generated.error), plan, g;
    }
    plan := generated.value;
    PresentedPairs(Rows(plan), g);
    assert net.links.Keys + LinkPairs(Rows(plan)) == LinkPairs(Rows(plan));
    if !kind.Random? {
      PromisedLinks(kind, peers, private, g);
    }
    r := DeployRows(Rows(generated.value), net);
  }

  // Why deploying fails: no random graph was found, which takes two private peers, or
  // the graph that was generated has more links than the subnet can serve.
  ghost predicate Failure(kind: Kind, peers: set<int>, private: set<int>, capacity: int, error: Error, g: Graph)
    requires private <= peers
  {
    || (kind.Random? && error == GenerationFailed && |private| >= 2)
    || (error in {SubnetExhausted, AddressOverflow} && Promised(kind, peers, private, g) && |EdgePairs(g)| > capacity)
  }
}
