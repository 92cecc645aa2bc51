// DeploymentStrategy.deploy: a plan is evaluated against the link allocator into
// the table of backbone ports (uno/registry/deployment_strategy/deployment_strategy.py).
module Deploy {
  import opened Prelude
  import opened PairedMap
  import opened LinkAllocation
  import opened Plans

  // One end of a link: port index, own address, other address, block.
  datatype Port = Port(index: int, local: int, remote: int, net: Network)

  datatype PeerPorts = PeerPorts(n: int, peers: map<int, Port>)

  // P2pLinksMap.peers
  type LinksMap = map<int, PeerPorts>

  function PortTo(a: int, b: int, index: int, link: Link): (r: Port) {
    Port(index, Pick(a, b, a, link.addresses), Pick(a, b, b, link.addresses), link.net)
  }

  // The inner dictionary: later ports to the same neighbour overwrite earlier ones.
  ghost function RowPorts(a: int, ports: seq<Option<int>>, links: map<Pair, Link>): (r: map<int, Port>)
    requires RowPairs(a, ports) <= links.Keys
    decreases |ports|
  {
    if ports == [] then map[]
    else
      var i := |ports| - 1;
      RowPairsPrefix(a, ports);
      var m := RowPorts(a, ports[..i], links);
      if ports[i].None? then m
      else m[ports[i].value := PortTo(a, ports[i].value, i, links[PairKey(a, ports[i].value)])]
  }

  // The outer dictionary.
  ghost function Table(rows: seq<Row>, links: map<Pair, Link>): (r: LinksMap)
    requires LinkPairs(rows) <= links.Keys
  {
    if rows == [] then map[]
    else
      var n := |rows| - 1;
      Table(rows[..n], links)[rows[n].id := PeerPorts(n, RowPorts(rows[n].id, rows[n].ports, links))]
  }

  lemma RowPairsPrefix(a: int, ports: seq<Option<int>>)
    requires ports != []
    ensures var i := |ports| - 1;
            RowPairs(a, ports) == RowPairs(a, ports[..i]) +
              (if ports[i].Some? then {PairKey(a, ports[i].value)} else {})
  {
    var i := |ports| - 1;
    assert ports == ports[..i] + [ports[i]];
    assert Values(ports) == Values(ports[..i]) + (if ports[i].Some? then {ports[i].value} else {});
  }

  ghost predicate Extends(more: map<Pair, Link>, less: map<Pair, Link>) {
    less.Keys <= more.Keys && forall k :: k in less ==> more[k] == less[k]
  }

  lemma ExtendsChain(c: map<Pair, Link>, b: map<Pair, Link>, a: map<Pair, Link>)
    ensures Extends(a, a)
    ensures Extends(c, b) && Extends(b, a) ==> Extends(c, a)
  {
  }

  // Ports already written do not change when further links are allocated.
  lemma {:induction false} RowPortsStable(a: int, ports: seq<Option<int>>, less: map<Pair, Link>, more: map<Pair, Link>)
    requires RowPairs(a, ports) <= less.Keys && Extends(more, less)
    ensures RowPorts(a, ports, less) == RowPorts(a, ports, more)
    decreases |ports|
  {
    if ports != [] {
      RowPairsPrefix(a, ports);
      RowPortsStable(a, ports[..|ports| - 1], less, more);
    }
  }

  lemma {:induction false} TableStable(rows: seq<Row>, less: map<Pair, Link>, more: map<Pair, Link>)
    requires LinkPairs(rows) <= less.Keys && Extends(more, less)
    ensures Table(rows, less) == Table(rows, more)
    decreases |rows|
  {
    if rows != [] {
      var n := |rows| - 1;
      TableStable(rows[..n], less, more);
      RowPortsStable(rows[n].id, rows[n].ports, less, more);
    }
  }

  lemma {:induction false} PairsOfRow(rows: seq<Row>, n: nat)
    requires n < |rows|
    ensures RowPairs(rows[n].id, rows[n].ports) <= LinkPairs(rows)
    ensures LinkPairs(rows[..n]) <= LinkPairs(rows)
    decreases |rows|
  {
    hide RowPairs;
    if n < |rows| - 1 {
      assert rows[..|rows| - 1][..n] == rows[..n];
      PairsOfRow(rows[..|rows| - 1], n);
    }
  }

  // One more port: the link is allocated or found, earlier ports stay.
  lemma PortStep(a: int, ports: seq<Option<int>>, i: int, before: map<Pair, Link>, after: map<Pair, Link>)
    requires 0 <= i < |ports| && RowPairs(a, ports[..i]) <= before.Keys && Extends(after, before)
    requires ports[i].Some? ==> PairKey(a, ports[i].value) in after
    ensures RowPairs(a, ports[..i + 1]) ==
              RowPairs(a, ports[..i]) + (if ports[i].Some? then {PairKey(a, ports[i].value)} else {})
    ensures RowPairs(a, ports[..i + 1]) <= after.Keys
    ensures RowPorts(a, ports[..i + 1], after) ==
              if ports[i].None? then RowPorts(a, ports[..i], before)
              else RowPorts(a, ports[..i], before)[
                     ports[i].value := PortTo(a, ports[i].value, i, after[PairKey(a, ports[i].value)])]
  {
    hide RowPairs, PairKey;
    var next := ports[..i + 1];
    assert next[..i] == ports[..i];
    RowPairsPrefix(a, next);
    RowPortsStable(a, ports[..i], before, after);
  }

  lemma RowTooLong(a: int, ports: seq<Option<int>>, i: int, held: set<Pair>, start: set<Pair>)
    requires 0 <= i < |ports| && ports[i].Some? && PairKey(a, ports[i].value) !in held
    requires held == start + RowPairs(a, ports[..i])
    ensures |start + RowPairs(a, ports)| > |held|
  {
    var k := PairKey(a, ports[i].value);
    assert ports[i].value in Values(ports);
    assert forall p :: 0 <= p < i ==> ports[..i][p] == ports[p];
    assert RowPairs(a, ports[..i]) <= RowPairs(a, ports);
    assert held + {k} <= start + RowPairs(a, ports);
    SubsetSize(held + {k}, start + RowPairs(a, ports));
  }

  // The bookkeeping of one allocator request.
  method RequestLink(a: int, b: int, net: LinkAllocator) returns (r: Result<Link>)
    requires net.subnet.Valid() && Inv(net.View()) && Regular(net.View())
    modifies net
    ensures Extends(net.links, old(net.links))
    ensures r.Ok? ==> Inv(net.View()) && Regular(net.View())
    ensures r.Ok? ==> net.links.Keys == old(net.links).Keys + {PairKey(a, b)} && r.value == net.links[PairKey(a, b)]
    ensures r.Err? ==> PairKey(a, b) !in old(net.links) && |old(net.links)| == Capacity(net.subnet)
    ensures r.Err? ==> net.links == old(net.links) && r.error in {SubnetExhausted, AddressOverflow}
  {
    hide Inv, Regular, Capacity, HostBitsClear, Network.Valid, PairKey, Serve;
    ServeStep(net.View(), a, b);
    r := net.AssertPair(a, b);
  }

  method DeployPeer(a: int, ports: seq<Option<int>>, net: LinkAllocator) returns (r: Result<map<int, Port>>)
    requires net.subnet.Valid() && Inv(net.View()) && Regular(net.View())
    modifies net
    ensures Extends(net.links, old(net.links))
    ensures r.Ok? ==> Inv(net.View()) && Regular(net.View())
    ensures r.Ok? ==> net.links.Keys == old(net.links).Keys + RowPairs(a, ports)
    ensures r.Ok? ==> r.value == RowPorts(a, ports, net.links)
    ensures r.Err? ==> |old(net.links).Keys + RowPairs(a, ports)| > Capacity(net.subnet)
    ensures r.Err? ==> r.error in {SubnetExhausted, AddressOverflow}
  {
    hide Inv, Regular, Capacity, HostBitsClear, Network.Valid, RowPairs, PairKey, RowPorts, PortTo,
         LinkAllocator.View, Extends;
    var done: map<int, Port> := map[];
    var i := 0;
    assert ports[..0] == [];
    NoPairs(a, net.links);
    ExtendsChain(net.links, net.links, net.links);
    while i < |ports|
      invariant 0 <= i <= |ports|
      invariant net.subnet.Valid() && Inv(net.View()) && Regular(net.View())
      invariant Extends(net.links, old(net.links))
      invariant net.links.Keys == old(net.links).Keys + RowPairs(a, ports[..i])
      invariant done == RowPorts(a, ports[..i], net.links)
    {
      ghost var before := net.links;
      ExtendsChain(before, before, before);
      if ports[i].Some? {
        var link := RequestLink(a, ports[i].value, net);
        if link.Err? {
          RowTooLong(a, ports, i, before.Keys, old(net.links).Keys);
          return Err(link.error);
        }
        done := done[ports[i].value := PortTo(a, ports[i].value, i, link.value)];
      }
      ExtendsChain(net.links, before, old(net.links));
      PortStep(a, ports, i, before, net.links);
      i := i + 1;
    }
    assert ports[..i] == ports;
    return Ok(done);
  }

  lemma NoPairs(a: int, links: map<Pair, Link>)
    ensures RowPairs(a, []) == {} && RowPorts(a, [], links) == map[]
  {
  }

  lemma NoRows(links: map<Pair, Link>)
    ensures LinkPairs([]) == {} && Table([], links) == map[]
  {
  }

  lemma TableStep(rows: seq<Row>, n: int, before: map<Pair, Link>, after: map<Pair, Link>)
    requires 0 <= n < |rows| && LinkPairs(rows[..n]) <= before.Keys && Extends(after, before)
    requires RowPairs(rows[n].id, rows[n].ports) <= after.Keys
    ensures LinkPairs(rows[..n + 1]) == LinkPairs(rows[..n]) + RowPairs(rows[n].id, rows[n].ports)
    ensures LinkPairs(rows[..n + 1]) <= after.Keys
    ensures Table(rows[..n + 1], after) ==
              Table(rows[..n], before)[rows[n].id := PeerPorts(n, RowPorts(rows[n].id, rows[n].ports, after))]
  {
    hide RowPairs, RowPorts;
    assert rows[..n + 1][..n] == rows[..n];
    TableStable(rows[..n], before, after);
  }

  lemma RowsTooMany(rows: seq<Row>, n: nat, held: set<Pair>, start: set<Pair>)
    requires n < |rows| && held == start + LinkPairs(rows[..n])
    ensures |held + RowPairs(rows[n].id, rows[n].ports)| <= |start + LinkPairs(rows)|
  {
    PairsOfRow(rows, n);
    hide RowPairs, LinkPairs;
    SubsetSize(held + RowPairs(rows[n].id, rows[n].ports), start + LinkPairs(rows));
  }

  // Deploying succeeds exactly when all links of the plan fit in the subnet, and
  // then gives the table over the final allocation.
  method DeployRows(rows: seq<Row>, net: LinkAllocator) returns (r: Result<LinksMap>)
    requires net.subnet.Valid() && Inv(net.View()) && Regular(net.View())
    modifies net
    ensures r.Ok? <==> |old(net.links).Keys + LinkPairs(rows)| <= Capacity(net.subnet)
    ensures r.Err? ==> r.error in {SubnetExhausted, AddressOverflow}
    ensures r.Ok? ==> Inv(net.View()) && Regular(net.View())
    ensures r.Ok? ==> net.links.Keys == old(net.links).Keys + LinkPairs(rows)
    ensures r.Ok? ==> r.value == Table(rows, net.links)
  {
    hide Inv, Regular, Capacity, HostBitsClear, Network.Valid, RowPairs, PairKey, RowPorts,
         LinkAllocator.View, Extends, Table, LinkPairs;
    var table: LinksMap := map[];
    var n := 0;
    ExtendsChain(net.links, net.links, net.links);
    assert rows[..0] == [];
    NoRows(net.links);
    while n < |rows|
      invariant 0 <= n <= |rows|
      invariant net.subnet.Valid() && Inv(net.View()) && Regular(net.View())
      invariant Extends(net.links, old(net.links))
      invariant net.links.Keys == old(net.links).Keys + LinkPairs(rows[..n])
      invariant table == Table(rows[..n], net.links)
    {
      ghost var before := net.links;
      var ports := DeployPeer(rows[n].id, rows[n].ports, net);
      ExtendsChain(net.links, before, old(net.links));
      if ports.Err? {
        RowsTooMany(rows, n, before.Keys, old(net.links).Keys);
        return Err(ports.error);
      }
      TableStep(rows, n, before, net.links);
      table := table[rows[n].id := PeerPorts(n, ports.value)];
      n := n + 1;
    }
    assert rows[..n] == rows;
    Fits(net);
    return Ok(table);
  }

  lemma Fits(net: LinkAllocator)
    requires Regular(net.View())
    ensures net.subnet.Valid() && |net.links| <= Capacity(net.subnet)
  {
    RegularFits(net.View());
  }

  // In a row without unknown or repeated neighbours port p leads to the p-th
  // neighbour, and nothing else is in the dictionary.
  lemma {:induction false} RowPortsAt(a: int, ports: seq<Option<int>>, links: map<Pair, Link>)
    requires RowPairs(a, ports) <= links.Keys
    requires Distinct(ports) && forall p :: 0 <= p < |ports| ==> ports[p].Some?
    ensures RowPorts(a, ports, links).Keys == Values(ports)
    ensures forall p :: 0 <= p < |ports| ==>
              && ports[p].value in RowPorts(a, ports, links)
              && PairKey(a, ports[p].value) in links
              && RowPorts(a, ports, links)[ports[p].value] ==
                   PortTo(a, ports[p].value, p, links[PairKey(a, ports[p].value)])
    decreases |ports|
  {
    hide PortTo, PairKey;
    if ports != [] {
      var i := |ports| - 1;
      RowPairsPrefix(a, ports);
      hide RowPairs;
      RowPortsAt(a, ports[..i], links);
      assert forall p :: 0 <= p < i ==> ports[..i][p] == ports[p];
      assert ports[i].value !in Values(ports[..i]);
      assert Values(ports) == Values(ports[..i]) + {ports[i].value};
    }
  }

  ghost function RowIds(rows: seq<Row>): (r: set<int>) {
    set n | 0 <= n < |rows| :: rows[n].id
  }

  lemma {:induction false} TableAt(rows: seq<Row>, links: map<Pair, Link>)
    requires LinkPairs(rows) <= links.Keys
    requires forall n, m :: 0 <= n < m < |rows| ==> rows[n].id != rows[m].id
    ensures Table(rows, links).Keys == RowIds(rows)
    ensures forall n :: 0 <= n < |rows| ==>
              && RowPairs(rows[n].id, rows[n].ports) <= links.Keys
              && rows[n].id in Table(rows, links)
              && Table(rows, links)[rows[n].id] == PeerPorts(n, RowPorts(rows[n].id, rows[n].ports, links))
    decreases |rows|
  {
    hide RowPairs, RowPorts;
    if rows != [] {
      var k := |rows| - 1;
      TableAt(rows[..k], links);
      assert forall n :: 0 <= n < k ==> rows[..k][n] == rows[n];
      assert RowIds(rows) == RowIds(rows[..k]) + {rows[k].id};
    }
  }

  // Everything later code needs to know about a deployed link of a simple plan:
  // both ends exist, and their ports carry the two addresses of one stored link.
  ghost predicate EndsOf(dep: LinksMap, links: map<Pair, Link>, a: int, b: int, i: int, j: int) {
    && a != b
    && PairKey(a, b) in links
    && a in dep && b in dep[a].peers && dep[a].peers[b] == PortTo(a, b, i, links[PairKey(a, b)])
    && b in dep && a in dep[b].peers && dep[b].peers[a] == PortTo(b, a, j, links[PairKey(a, b)])
  }

  lemma RowEnd(rows: seq<Row>, links: map<Pair, Link>, n: int, m: int) returns (i: int)
    requires Simple(rows) && LinkPairs(rows) <= links.Keys
    requires 0 <= n < |rows| && 0 <= m < |rows| && Linked(rows[n], rows[m])
    ensures 0 <= i < |rows[n].ports| && rows[n].ports[i] == Some(rows[m].id)
    ensures var a := rows[n].id; var b := rows[m].id; var dep := Table(rows, links);
            && a != b && PairKey(a, b) in links
            && a in dep && b in dep[a].peers && dep[a].peers[b] == PortTo(a, b, i, links[PairKey(a, b)])
  {
    assert RowSimple(rows, rows[n]);
    TableAt(rows, links);
    hide Table;
    RowPortsAt(rows[n].id, rows[n].ports, links);
    hide RowPorts, RowPairs, Values, PortTo, PairKey;
    i := PortOf(rows[n].ports, rows[m].id);
  }

  lemma PortOf(ports: seq<Option<int>>, b: int) returns (i: int)
    requires b in Values(ports)
    ensures 0 <= i < |ports| && ports[i] == Some(b)
  {
    i :| 0 <= i < |ports| && ports[i].Some? && ports[i].value == b;
  }

  // deploy() is symmetric on simple plans, so the unguarded lookup of the other
  // end's port never fails.
  lemma DeployedEnds(rows: seq<Row>, links: map<Pair, Link>, n: int, m: int) returns (i: int, j: int)
    requires Simple(rows) && LinkPairs(rows) <= links.Keys
    requires 0 <= n < |rows| && 0 <= m < |rows| && Linked(rows[n], rows[m])
    ensures 0 <= i < |rows[n].ports| && rows[n].ports[i] == Some(rows[m].id)
    ensures 0 <= j < |rows[m].ports| && rows[m].ports[j] == Some(rows[n].id)
    ensures EndsOf(Table(rows, links), links, rows[n].id, rows[m].id, i, j)
  {
    i := RowEnd(rows, links, n, m);
    assert Linked(rows[m], rows[n]);
    j := RowEnd(rows, links, m, n);
    hide Table;
    assert PairKey(rows[n].id, rows[m].id) == PairKey(rows[m].id, rows[n].id);
  }

  // The deployed table refines the plan: the same peers in the same positions,
  // the same neighbours, and port indices exactly 0..degree-1 in plan order.
  lemma DeployRefinesPlan(rows: seq<Row>, links: map<Pair, Link>, n: int)
    requires LinkPairs(rows) <= links.Keys && 0 <= n < |rows| && Listed(rows, n)
    ensures var dep := Table(rows, links); var a := rows[n].id;
            && dep.Keys == RowIds(rows)
            && a in dep && dep[a].n == n
            && dep[a].peers.Keys == Values(rows[n].ports)
            && |dep[a].peers| == |rows[n].ports|
    ensures forall b :: b in Table(rows, links)[rows[n].id].peers ==>
              var i := Table(rows, links)[rows[n].id].peers[b].index;
              0 <= i < |rows[n].ports| && rows[n].ports[i] == Some(b)
    ensures forall i :: 0 <= i < |rows[n].ports| ==>
              && rows[n].ports[i].Some?
              && rows[n].ports[i].value in Table(rows, links)[rows[n].id].peers
              && Table(rows, links)[rows[n].id].peers[rows[n].ports[i].value].index == i
  {
    TableAt(rows, links);
    hide Table;
    RowPortsAt(rows[n].id, rows[n].ports, links);
    hide RowPorts, RowPairs, PairKey;
    var ports := rows[n].ports;
    ValuesSize(ports);
    var dep := Table(rows, links);
    forall b | b in dep[rows[n].id].peers
      ensures var i := dep[rows[n].id].peers[b].index; 0 <= i < |ports| && ports[i] == Some(b)
    {
      var i := PortOf(ports, b);
    }
  }

  // From an adjacency list over distinct ids: a peer whose list names known ids
  // without repetition is deployed with exactly that list, port by port.
  lemma DeployRefinesAdjacency(adjacency: seq<(int, seq<int>)>, links: map<Pair, Link>, n: int)
    requires Distinct(StaticPlan(adjacency).Ids()) && LinkPairs(Rows(StaticPlan(adjacency))) <= links.Keys
    requires 0 <= n < |adjacency| && Distinct(adjacency[n].1)
    requires forall b :: b in adjacency[n].1 ==> b in StaticPlan(adjacency).Ids()
    ensures var dep := Table(Rows(StaticPlan(adjacency)), links); var a := adjacency[n].0;
            && a in dep && dep[a].n == n
            && dep[a].peers.Keys == Elements(adjacency[n].1)
            && forall i :: 0 <= i < |adjacency[n].1| ==>
                 adjacency[n].1[i] in dep[a].peers && dep[a].peers[adjacency[n].1[i]].index == i
  {
    var rows := Rows(StaticPlan(adjacency));
    StaticListed(adjacency, n);
    hide Rows, LinkPairs, Table, Values, Listed, Plan.Ids;
    DeployRefinesPlan(rows, links, n);
  }

  lemma {:induction false} ValuesSize(ports: seq<Option<int>>)
    requires Distinct(ports) && forall p :: 0 <= p < |ports| ==> ports[p].Some?
    ensures |Values(ports)| == |ports|
    decreases |ports|
  {
    if ports == [] {
      assert Values(ports) == {};
    } else {
      var i := |ports| - 1;
      ValuesSize(ports[..i]);
      assert ports == ports[..i] + [ports[i]];
      assert Values(ports) == Values(ports[..i]) + {ports[i].value};
      assert ports[i].value !in Values(ports[..i]);
    }
  }
}
