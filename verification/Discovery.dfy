// What an agent derives from the deployed backbone: the addresses it announces
// itself to (uno/middleware/participant.py) and the ports it opens
// (uno/registry/uvn.py, uno/registry/package.py).
module Discovery {
  import opened Prelude
  import opened PairedMap
  import opened LinkAllocation
  import opened Plans
  import opened Graphs
  import opened Deploy
  import opened Mirror
  import opened VpnConfig
  import opened Pipeline

  // initial_peers of a cell: backbone addresses, and the root's address on the root VPN.
  ghost function InitialPeers(dep: LinksMap, owner: int, root: Option<int>): (r: set<int>) {
    BackbonePeers(dep, owner) + (if root.Some? then {root.value} else {})
  }

  ghost function BackbonePeers(dep: LinksMap, owner: int): (r: set<int>) {
    (set a, b | a in dep && b in dep[a].peers && (dep[a].peers[b].index == 0 || b == owner) :: dep[a].peers[b].local)
    - OwnAddresses(dep, owner)
  }

  ghost function OwnAddresses(dep: LinksMap, owner: int): (r: set<int>) {
    if owner in dep then set b | b in dep[owner].peers :: dep[owner].peers[b].local else {}
  }

  lemma NotOwn(rows: seq<Row>, g: Graph, al: Allocation, owner: int, c: int, b: int)
    requires Simple(rows) && Presents(rows, g) && Mutual(g) && Inv(al) && LinkPairs(rows) <= al.links.Keys
    requires c in g && b in g[c] && c != owner
    ensures var dep := Table(rows, al.links);
            c in dep && b in dep[c].peers && dep[c].peers[b].local !in OwnAddresses(dep, owner)
  {
    DeployedKeys(rows, g, al.links);
    hide Simple, Presents, LinkPairs, Table, Inv;
    var dep := Table(rows, al.links);
    var i, j := DeployedLink(rows, g, al.links, c, b);
    if owner in dep {
      forall d | d in dep[owner].peers
        ensures dep[owner].peers[d].local != dep[c].peers[b].local
      {
        assert d in g[owner];
        var p, q := DeployedLink(rows, g, al.links, owner, d);
        CellsShareNoAddress(al, c, b, owner, d);
      }
    }
  }

  // Discovery is complete: a cell contacts every other linked cell on some
  // backbone address, every neighbour on their shared link, the root if there is a
  // root VPN, and itself only if the root has one of its backbone addresses.
  lemma DiscoveryComplete(rows: seq<Row>, g: Graph, al: Allocation, owner: int, root: Option<int>)
    requires Simple(rows) && Presents(rows, g) && Mutual(g) && Inv(al) && LinkPairs(rows) <= al.links.Keys
    ensures var dep := Table(rows, al.links);
            && dep.Keys == g.Keys
            && (forall c :: c in g && c != owner && g[c] != {} ==>
                  exists b :: b in dep[c].peers && dep[c].peers[b].local in InitialPeers(dep, owner, root))
            && (forall b :: owner in g && b in g[owner] ==>
                  b in dep && owner in dep[b].peers && dep[b].peers[owner].local in InitialPeers(dep, owner, root))
            && (forall ip :: ip in BackbonePeers(dep, owner) ==>
                  exists c, b :: c in g && c != owner && c in dep && b in dep[c].peers && dep[c].peers[b].local == ip &&
                    (dep[c].peers[b].index == 0 || b == owner))
            && (root.Some? ==> root.value in InitialPeers(dep, owner, root))
            && (InitialPeers(dep, owner, root) !! OwnAddresses(dep, owner) <==>
                root.None? || root.value !in OwnAddresses(dep, owner))
  {
    DeployedKeys(rows, g, al.links);
    hide LinkPairs, Table, Inv, OwnAddresses, RowSimple;
    var dep := Table(rows, al.links);
    forall c | c in g && c != owner && g[c] != {}
      ensures exists b :: b in dep[c].peers && dep[c].peers[b].local in InitialPeers(dep, owner, root)
    {
      var b := FirstPort(rows, g, al.links, c);
      NotOwn(rows, g, al, owner, c, b);
      assert dep[c].peers[b].local in InitialPeers(dep, owner, root);
    }
    forall b | owner in g && b in g[owner]
      ensures b in dep && owner in dep[b].peers && dep[b].peers[owner].local in InitialPeers(dep, owner, root)
    {
      assert b in g && owner in g[b];
      NotOwn(rows, g, al, owner, b, owner);
    }
  }

  // A cell with links has a port 0.
  lemma FirstPort(rows: seq<Row>, g: Graph, links: map<Pair, Link>, c: int) returns (b: int)
    requires Simple(rows) && Presents(rows, g) && LinkPairs(rows) <= links.Keys && c in g && g[c] != {}
    ensures b in g[c] && c in Table(rows, links) && b in Table(rows, links)[c].peers
    ensures Table(rows, links)[c].peers[b].index == 0
  {
    hide LinkPairs, Table, RowSimple, Values;
    assert Names(rows, c);
    var n :| 0 <= n < |rows| && rows[n].id == c;
    SimpleIsListed(rows, n);
    DeployRefinesPlan(rows, links, n);
    var x := Witness(g[c]);
    assert x in Table(rows, links)[c].peers;
    assert |rows[n].ports| > 0;
    b := rows[n].ports[0].value;
  }

  // ----- Ports -----

  // get_peers() and deployment_peers(): the peers sorted by port index.
  ghost predicate SortedByPort(ports: map<int, Port>, s: seq<int>) {
    && Enumerates(s, ports.Keys)
    && (forall i :: 0 <= i < |s| ==> s[i] in ports)
    && forall i, j :: 0 <= i < j < |s| ==> ports[s[i]].index <= ports[s[j]].index
  }

  lemma {:induction false} IndexAtLeast(ports: map<int, Port>, s: seq<int>, i: int)
    requires forall j :: 0 <= j < |s| ==> s[j] in ports && ports[s[j]].index >= 0
    requires forall j, k :: 0 <= j < k < |s| ==> ports[s[j]].index < ports[s[k]].index
    requires 0 <= i < |s|
    ensures ports[s[i]].index >= i
    decreases i
  {
    if i > 0 {
      IndexAtLeast(ports, s, i - 1);
      assert ports[s[i - 1]].index < ports[s[i]].index;
    }
  }

  lemma {:induction false} IndexAtMost(ports: map<int, Port>, s: seq<int>, i: int)
    requires forall j :: 0 <= j < |s| ==> s[j] in ports && ports[s[j]].index < |s|
    requires forall j, k :: 0 <= j < k < |s| ==> ports[s[j]].index < ports[s[k]].index
    requires 0 <= i < |s|
    ensures ports[s[i]].index <= i
    decreases |s| - i
  {
    if i < |s| - 1 {
      IndexAtMost(ports, s, i + 1);
      assert ports[s[i]].index < ports[s[i + 1]].index;
    }
  }

  lemma SortedIndices(ports: map<int, Port>, s: seq<int>)
    requires SortedByPort(ports, s)
    requires forall b :: b in ports ==> 0 <= ports[b].index < |ports|
    requires forall b, c :: b in ports && c in ports && b != c ==> ports[b].index != ports[c].index
    ensures |s| == |ports|
    ensures forall i :: 0 <= i < |s| ==> ports[s[i]].index == i
  {
    EnumerationSize(s, ports.Keys);
    hide Enumerates;
    forall j, k | 0 <= j < k < |s|
      ensures ports[s[j]].index < ports[s[k]].index
    {
      DistinctAt(s, ports.Keys, j, k);
    }
    forall j | 0 <= j < |s|
      ensures s[j] in ports && 0 <= ports[s[j]].index < |s|
    {
      var b := s[j];
      assert b in ports;
    }
    forall i | 0 <= i < |s|
      ensures ports[s[i]].index == i
    {
      IndexAtLeast(ports, s, i);
      IndexAtMost(ports, s, i);
    }
  }

  // Enumerating the sorted peers gives back the port indices, as the generated
  // installation guide assumes.
  lemma SortedPeersAreRow(rows: seq<Row>, links: map<Pair, Link>, n: int, s: seq<int>)
    requires LinkPairs(rows) <= links.Keys && 0 <= n < |rows| && Listed(rows, n)
    requires rows[n].id in Table(rows, links) && SortedByPort(Table(rows, links)[rows[n].id].peers, s)
    ensures |s| == |rows[n].ports|
    ensures forall i :: 0 <= i < |s| ==>
              && s[i] in Table(rows, links)[rows[n].id].peers
              && Table(rows, links)[rows[n].id].peers[s[i]].index == i
              && rows[n].ports[i] == Some(s[i])
  {
    hide LinkPairs, Table, Listed, Values, Enumerates;
    DeployRefinesPlan(rows, links, n);
    SortedIndices(Table(rows, links)[rows[n].id].peers, s);
  }

  lemma DistinctAt(s: seq<int>, xs: set<int>, j: int, k: int)
    requires Enumerates(s, xs) && 0 <= j < k < |s|
    ensures s[j] != s[k]
  {
  }

  // The ports a UVN documents as used by its agents.
  ghost predicate IsAgentPort(rootVpn: Option<int>, particlesVpn: Option<int>, backbonePort: int, cells: nat, p: int) {
    rootVpn == Some(p) || particlesVpn == Some(p) || backbonePort <= p < backbonePort + cells
  }

  // Uvn.agent_ports
  method AgentPorts(rootVpn: Option<int>, particlesVpn: Option<int>, backbonePort: int, cells: nat)
    returns (ports: seq<int>)
    ensures forall p :: p in ports <==> IsAgentPort(rootVpn, particlesVpn, backbonePort, cells, p)
  {
    ports := [];
    if rootVpn.Some? {
      ports := ports + [rootVpn.value];
    }
    if particlesVpn.Some? {
      ports := ports + [particlesVpn.value];
    }
    var i := 0;
    while i < cells
      invariant 0 <= i <= cells
      invariant forall p :: p in ports <==> IsAgentPort(rootVpn, particlesVpn, backbonePort, i, p)
    {
      ports := ports + [backbonePort + i];
      i := i + 1;
    }
  }

  // Every backbone listen port of a cell is among the agents' ports.
  lemma ListenPortsAreOpen(rows: seq<Row>, links: map<Pair, Link>, n: int, b: int,
                           rootVpn: Option<int>, particlesVpn: Option<int>, backbonePort: int)
    requires LinkPairs(rows) <= links.Keys && 0 <= n < |rows| && Listed(rows, n)
    requires rows[n].id in Table(rows, links) && b in Table(rows, links)[rows[n].id].peers
    ensures IsAgentPort(rootVpn, particlesVpn, backbonePort, |RowIds(rows)|,
                        backbonePort + Table(rows, links)[rows[n].id].peers[b].index)
  {
    hide LinkPairs, Table, Values;
    RowIdsSize(rows);
    DeployRefinesPlan(rows, links, n);
    DegreeBound(rows, n);
  }

  // So is the port that each compiled configuration of an addressed cell listens on, and
  // the port that it dials.
  lemma CompiledPortsAreOpen(settings: Settings, subnet: Network, addresses: map<int, Option<string>>, g: Graph,
                             configs: Configs, publicOf: int -> int, a: int, b: int,
                             rootVpn: Option<int>, particlesVpn: Option<int>)
    requires subnet.Valid() && EndsProper(settings, subnet, addresses, g, configs) && IsEnd(g, a, b)
    requires Mutual(g) && g.Keys == addresses.Keys && MirrorsGraph(publicOf, g, configs)
    ensures var c := configs[a][b];
            && (HasAddress(addresses[a]) ==>
                  IsAgentPort(rootVpn, particlesVpn, settings.port, |addresses|, c.intf.port))
            && (c.peer.endpoint.Some? ==>
                  IsAgentPort(rootVpn, particlesVpn, settings.port, |addresses|, c.peer.endpoint.value.port))
  {
    hide Network.Valid;
    assert IsEnd(g, b, a);
    NeighboursBound(g, a);
    NeighboursBound(g, b);
    assert |addresses| == |addresses.Keys|;
    assert Mirrored(publicOf, configs[a][b], configs[b][a]);
  }

  lemma NeighboursBound(g: Graph, a: int)
    requires Mutual(g) && a in g
    ensures |g[a]| <= |g.Keys|
  {
    forall b | b in g[a]
      ensures b in g.Keys
    {
    }
    SubsetSize(g[a], g.Keys);
  }

  lemma DegreeBound(rows: seq<Row>, n: int)
    requires 0 <= n < |rows| && Listed(rows, n)
    ensures |rows[n].ports| <= |rows|
  {
    var ports := rows[n].ports;
    ValuesSize(ports);
    RowIdsSize(rows);
    forall v | v in Values(ports)
      ensures v in RowIds(rows)
    {
      var i := PortOf(ports, v);
      assert Names(rows, v);
    }
    SubsetSize(Values(ports), RowIds(rows));
  }

  lemma {:induction false} RowIdsSize(rows: seq<Row>)
    requires forall n, m :: 0 <= n < m < |rows| ==> rows[n].id != rows[m].id
    ensures |RowIds(rows)| == |rows|
    decreases |rows|
  {
    if rows == [] {
      assert RowIds(rows) == {};
    } else {
      var k := |rows| - 1;
      RowIdsSize(rows[..k]);
      assert rows == rows[..k] + [rows[k]];
      assert RowIds(rows) == RowIds(rows[..k]) + {rows[k].id};
    }
  }
}
