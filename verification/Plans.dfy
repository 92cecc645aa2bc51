// What a deployment strategy hands to deploy(): peer ids, a number of ports per
// peer and one neighbour function per port.  The closures that the strategies
// build are represented by the data they capture.
module Plans {
  import opened Prelude
  import opened PairedMap
  import Ring

  datatype Plan =
    | NoPlan                                               // EMPTY_DEPLOYMENT
    | RingPlan(shape: Ring.Shape, order: seq<int>)         // _generate_deployment_all_public
    | StaticPlan(adjacency: seq<(int, seq<int>)>)          // StaticDeploymentStrategy
  {
    // peer_peers_count asserts at least two peers in a ring.
    predicate Usable() {
      RingPlan? ==> |order| >= 2
    }

    function Ids(): (r: seq<int>) {
      match this
      case NoPlan => []
      case RingPlan(_, order) => order
      case StaticPlan(adjacency) => seq(|adjacency|, i requires 0 <= i < |adjacency| => adjacency[i].0)
    }

    // The neighbour ids of the n-th peer by port; None stands for a port whose
    // neighbour is unknown, which deploy() skips.
    function Ports(n: int): (r: seq<Option<int>>)
      requires Usable() && 0 <= n < |Ids()|
    {
      match this
      case RingPlan(shape, order) =>
        var peers := Ring.Peers(shape, |order|, n);
        Ring.PeersAreSimple(shape, |order|, n);
        seq(|peers|, p requires 0 <= p < |peers| => Some(order[peers[p]]))
      case StaticPlan(adjacency) =>
        var peers := adjacency[n].1;
        seq(|peers|, p requires 0 <= p < |peers| => Known(Ids(), peers[p]))
    }
  }

  // peer_ids.index(id): the position of its first occurrence, if there is one.
  function IndexOf(s: seq<int>, x: int): (r: Option<int>)
    ensures r.None? <==> x !in s
    ensures r.Some? ==> 0 <= r.value < |s| && s[r.value] == x
    ensures r.Some? ==> forall i :: 0 <= i < r.value ==> s[i] != x
  {
    if s == [] then None
    else if s[0] == x then Some(0)
    else
      match IndexOf(s[1..], x)
      case None => None
      case Some(i) => Some(i + 1)
  }

  // The id found back through the index that the neighbour function returned.
  function Known(ids: seq<int>, x: int): (r: Option<int>)
    ensures r == if x in ids then Some(x) else None
  {
    match IndexOf(ids, x)
    case None => None
    case Some(i) => Some(ids[i])
  }

  // One peer of a plan with its evaluated ports.
  datatype Row = Row(id: int, ports: seq<Option<int>>)

  function Rows(plan: Plan): (r: seq<Row>)
    requires plan.Usable()
    ensures |r| == |plan.Ids()|
    ensures forall n :: 0 <= n < |r| ==> r[n] == Row(plan.Ids()[n], plan.Ports(n))
  {
    seq(|plan.Ids()|, n requires 0 <= n < |plan.Ids()| => Row(plan.Ids()[n], plan.Ports(n)))
  }

  ghost function Values(ports: seq<Option<int>>): (r: set<int>) {
    set p | 0 <= p < |ports| && ports[p].Some? :: ports[p].value
  }

  // The links of one peer and of all peers.
  ghost function RowPairs(a: int, ports: seq<Option<int>>): (r: set<Pair>) {
    set b | b in Values(ports) :: PairKey(a, b)
  }

  ghost function LinkPairs(rows: seq<Row>): (r: set<Pair>) {
    if rows == [] then {}
    else LinkPairs(rows[..|rows| - 1]) + RowPairs(rows[|rows| - 1].id, rows[|rows| - 1].ports)
  }

  ghost predicate Names(rows: seq<Row>, b: int) {
    exists n :: 0 <= n < |rows| && rows[n].id == b
  }

  // A plan without unknown, repeated or self links in which every link is
  // announced by both of its ends.
  ghost predicate RowSimple(rows: seq<Row>, row: Row) {
    && (forall p :: 0 <= p < |row.ports| ==> row.ports[p].Some? && Names(rows, row.ports[p].value))
    && Distinct(row.ports)
    && row.id !in Values(row.ports)
  }

  // Distinct ids, and known, unrepeated neighbours of the n-th peer.
  ghost predicate Listed(rows: seq<Row>, n: int)
    requires 0 <= n < |rows|
  {
    && (forall k, m :: 0 <= k < m < |rows| ==> rows[k].id != rows[m].id)
    && (forall p :: 0 <= p < |rows[n].ports| ==> rows[n].ports[p].Some? && Names(rows, rows[n].ports[p].value))
    && Distinct(rows[n].ports)
  }

  lemma SimpleIsListed(rows: seq<Row>, n: int)
    requires Simple(rows) && 0 <= n < |rows|
    ensures Listed(rows, n)
  {
    assert RowSimple(rows, rows[n]);
  }

  ghost predicate Linked(r: Row, s: Row) {
    s.id in Values(r.ports)
  }

  ghost predicate Simple(rows: seq<Row>) {
    && (forall n, m :: 0 <= n < m < |rows| ==> rows[n].id != rows[m].id)
    && (forall n :: 0 <= n < |rows| ==> RowSimple(rows, rows[n]))
    && (forall n, m :: 0 <= n < |rows| && 0 <= m < |rows| && Linked(rows[n], rows[m]) ==> Linked(rows[m], rows[n]))
  }

  // A ring over distinct ids is simple.
  lemma RingPorts(shape: Ring.Shape, order: seq<int>, n: int)
    requires |order| >= 2 && 0 <= n < |order|
    ensures var peers := Ring.Peers(shape, |order|, n);
            var ports := RingPlan(shape, order).Ports(n);
            && |ports| == |peers|
            && forall p :: 0 <= p < |peers| ==> 0 <= peers[p] < |order| && ports[p] == Some(order[peers[p]])
  {
    Ring.PeersAreSimple(shape, |order|, n);
    hide Ring.Peers;
  }

  lemma RingRowSimple(shape: Ring.Shape, order: seq<int>, n: int)
    requires |order| >= 2 && Distinct(order) && 0 <= n < |order|
    ensures var rows := Rows(RingPlan(shape, order)); RowSimple(rows, rows[n])
  {
    hide Plan.Ports, Ring.Peers;
    var plan := RingPlan(shape, order);
    var peers := Ring.Peers(shape, |order|, n);
    Ring.PeersAreSimple(shape, |order|, n);
    RingPorts(shape, order, n);
    var ports := plan.Ports(n);
    forall p | 0 <= p < |ports|
      ensures Names(Rows(plan), ports[p].value)
    {
      assert Rows(plan)[peers[p]].id == ports[p].value;
    }
  }

  lemma RingRow(shape: Ring.Shape, order: seq<int>, n: int, m: int)
    requires |order| >= 2 && Distinct(order) && 0 <= n < |order| && 0 <= m < |order|
    ensures order[m] in Values(RingPlan(shape, order).Ports(n)) <==> m in Ring.Peers(shape, |order|, n)
  {
    hide Plan.Ports, Ring.Peers;
    var peers := Ring.Peers(shape, |order|, n);
    RingPorts(shape, order, n);
    var ports := RingPlan(shape, order).Ports(n);
    if m in peers {
      var p :| 0 <= p < |peers| && peers[p] == m;
      assert ports[p] == Some(order[m]);
    }
  }

  lemma RingIsSimple(shape: Ring.Shape, order: seq<int>)
    requires |order| >= 2 && Distinct(order)
    ensures Simple(Rows(RingPlan(shape, order)))
  {
    hide RowSimple, Plan.Ports, Ring.Peers;
    var plan := RingPlan(shape, order);
    var rows := Rows(plan);
    forall n | 0 <= n < |order|
      ensures RowSimple(rows, rows[n])
    {
      RingRowSimple(shape, order, n);
    }
    forall n, m | 0 <= n < |order| && 0 <= m < |order| && Linked(rows[n], rows[m])
      ensures Linked(rows[m], rows[n])
    {
      RingRow(shape, order, n, m);
      RingRow(shape, order, m, n);
      Ring.PeersAreSymmetric(shape, |order|, n, m);
    }
  }

  // An adjacency list over distinct known ids, without repetitions or self
  // links, in which adjacency is mutual.
  ghost predicate MutualAdjacency(adjacency: seq<(int, seq<int>)>) {
    && (forall n, m :: 0 <= n < m < |adjacency| ==> adjacency[n].0 != adjacency[m].0)
    && (forall n :: 0 <= n < |adjacency| ==> ListSimple(adjacency, n))
    && (forall n, m :: 0 <= n < |adjacency| && 0 <= m < |adjacency| && adjacency[m].0 in adjacency[n].1 ==>
          adjacency[n].0 in adjacency[m].1)
  }

  ghost predicate ListSimple(adjacency: seq<(int, seq<int>)>, n: int)
    requires 0 <= n < |adjacency|
  {
    && Distinct(adjacency[n].1)
    && adjacency[n].0 !in adjacency[n].1
    && forall b :: b in adjacency[n].1 ==> b in StaticPlan(adjacency).Ids()
  }

  // The neighbour functions built from an adjacency list give the list back,
  // with unknown neighbours left out.
  lemma StaticRow(adjacency: seq<(int, seq<int>)>, n: int)
    requires 0 <= n < |adjacency|
    ensures var plan := StaticPlan(adjacency);
            && |plan.Ports(n)| == |adjacency[n].1|
            && forall p :: 0 <= p < |adjacency[n].1| ==>
                 plan.Ports(n)[p] == if adjacency[n].1[p] in plan.Ids() then Some(adjacency[n].1[p]) else None
    ensures forall b :: b in Values(StaticPlan(adjacency).Ports(n)) <==>
                        b in adjacency[n].1 && b in StaticPlan(adjacency).Ids()
  {
    var ports := StaticPlan(adjacency).Ports(n);
    forall b | b in adjacency[n].1 && b in StaticPlan(adjacency).Ids()
      ensures b in Values(ports)
    {
      var p :| 0 <= p < |adjacency[n].1| && adjacency[n].1[p] == b;
      assert ports[p] == Some(b);
    }
  }

  lemma StaticRowSimple(adjacency: seq<(int, seq<int>)>, n: int)
    requires 0 <= n < |adjacency| && ListSimple(adjacency, n)
    ensures var rows := Rows(StaticPlan(adjacency)); RowSimple(rows, rows[n])
  {
    var plan := StaticPlan(adjacency);
    StaticRow(adjacency, n);
    hide Plan.Ports;
    var ports := plan.Ports(n);
    forall p | 0 <= p < |ports|
      ensures ports[p].Some? && Names(Rows(plan), ports[p].value)
    {
      assert adjacency[n].1[p] in plan.Ids();
      var m :| 0 <= m < |plan.Ids()| && plan.Ids()[m] == adjacency[n].1[p];
      assert Rows(plan)[m].id == ports[p].value;
    }
  }

  lemma StaticListed(adjacency: seq<(int, seq<int>)>, n: int)
    requires Distinct(StaticPlan(adjacency).Ids()) && 0 <= n < |adjacency| && Distinct(adjacency[n].1)
    requires forall b :: b in adjacency[n].1 ==> b in StaticPlan(adjacency).Ids()
    ensures var rows := Rows(StaticPlan(adjacency));
            && |rows| == |adjacency| && rows[n].id == adjacency[n].0 && Listed(rows, n)
            && |rows[n].ports| == |adjacency[n].1|
            && (forall p :: 0 <= p < |adjacency[n].1| ==> rows[n].ports[p] == Some(adjacency[n].1[p]))
            && Values(rows[n].ports) == Elements(adjacency[n].1)
  {
    var plan := StaticPlan(adjacency);
    var rows := Rows(plan);
    StaticRow(adjacency, n);
    hide Plan.Ports, Values;
    var ports := rows[n].ports;
    forall p | 0 <= p < |ports|
      ensures ports[p] == Some(adjacency[n].1[p]) && Names(rows, ports[p].value)
    {
      assert adjacency[n].1[p] in plan.Ids();
      var m :| 0 <= m < |plan.Ids()| && plan.Ids()[m] == adjacency[n].1[p];
      assert rows[m].id == ports[p].value;
    }
  }

  lemma StaticIsSimple(adjacency: seq<(int, seq<int>)>)
    requires MutualAdjacency(adjacency)
    ensures Simple(Rows(StaticPlan(adjacency)))
  {
    hide RowSimple, Plan.Ports;
    var plan := StaticPlan(adjacency);
    var rows := Rows(plan);
    forall n | 0 <= n < |adjacency|
      ensures RowSimple(rows, rows[n])
    {
      StaticRowSimple(adjacency, n);
    }
    forall n, m | 0 <= n < |adjacency| && 0 <= m < |adjacency| && Linked(rows[n], rows[m])
      ensures Linked(rows[m], rows[n])
    {
      StaticRow(adjacency, n);
      StaticRow(adjacency, m);
      assert adjacency[m].0 in adjacency[n].1;
      assert plan.Ids()[n] == adjacency[n].0;
    }
  }
}
