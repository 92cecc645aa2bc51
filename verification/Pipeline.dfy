// Registry.redeploy followed by the compilation of the backbone configurations
// (uno/registry/registry.py, uno/registry/vpn_config.py): the whole way from the
// cells' addresses to the WireGuard configurations of all link ends.
module Pipeline {
  import opened Prelude
  import opened PairedMap
  import opened LinkAllocation
  import opened Plans
  import opened Graphs
  import opened Deploy
  import opened VpnConfig
  import opened Mirror
  import opened Strategies
  import FullMesh
  import RandomRuns
  import Isolation
  import Ring

  // Cells without an address are private.
  function PrivateCells(addresses: map<int, Option<string>>): (r: set<int>)
    ensures r <= addresses.Keys && forall c :: c in addresses ==> (c in r <==> !HasAddress(addresses[c]))
  {
    set c | c in addresses && !HasAddress(addresses[c])
  }

  // A single addressed cell is enough for a backbone.
  ghost predicate SomeAddress(addresses: map<int, Option<string>>) {
    exists c :: c in addresses && HasAddress(addresses[c])
  }

  lemma PublicMeansAddress(addresses: map<int, Option<string>>)
    ensures SomeAddress(addresses) <==> PrivateCells(addresses) != addresses.Keys
  {
    if PrivateCells(addresses) != addresses.Keys {
      assert PrivateCells(addresses) + (addresses.Keys - PrivateCells(addresses)) == addresses.Keys;
      var c := Witness(addresses.Keys - PrivateCells(addresses));
    }
  }

  // One map of configurations per cell, keyed by the cell at the other end.
  type Configs = map<int, map<int, WireGuardConfig>>

  // A deployed link of a presented graph has both of its ends.
  lemma DeployedLink(rows: seq<Row>, g: Graph, links: map<Pair, Link>, a: int, b: int) returns (i: int, j: int)
    requires Simple(rows) && Presents(rows, g) && LinkPairs(rows) <= links.Keys && a in g && b in g[a] && b in g
    ensures EndsOf(Table(rows, links), links, a, b, i, j)
  {
    hide Simple, LinkPairs, Values, EndsOf, Table;
    assert Names(rows, a) && Names(rows, b);
    var n :| 0 <= n < |rows| && rows[n].id == a;
    var m :| 0 <= m < |rows| && rows[m].id == b;
    i, j := DeployedEnds(rows, links, n, m);
  }

  lemma DeployedKeys(rows: seq<Row>, g: Graph, links: map<Pair, Link>)
    requires Simple(rows) && Presents(rows, g) && LinkPairs(rows) <= links.Keys
    ensures var dep := Table(rows, links);
            dep.Keys == g.Keys && forall a :: a in g ==> dep[a].peers.Keys == g[a]
  {
    hide LinkPairs, Values, Table, RowSimple;
    var dep := Table(rows, links);
    if rows == [] {
      TableAt(rows, links);
    }
    forall a
      ensures a in dep <==> a in g
      ensures a in g ==> a in dep && dep[a].peers.Keys == g[a]
    {
      if a in g {
        assert Names(rows, a);
        var n :| 0 <= n < |rows| && rows[n].id == a;
        SimpleIsListed(rows, n);
        DeployRefinesPlan(rows, links, n);
      } else {
        TableAt(rows, links);
      }
    }
  }

  // All configurations computed with one table of keys.
  ghost predicate Computed(settings: Settings, dep: LinksMap, addresses: map<int, Option<string>>,
                           keys: PairKeys, a: int, configs: map<int, WireGuardConfig>) {
    && configs.Keys == (if a in dep then dep[a].peers.Keys else {})
    && forall b :: b in configs ==> LinkConfig(settings, dep, addresses, keys, a, b) == Ok(configs[b])
  }

  lemma ComputedStable(settings: Settings, dep: LinksMap, addresses: map<int, Option<string>>,
                       less: PairKeys, more: PairKeys, a: int, configs: map<int, WireGuardConfig>)
    requires Computed(settings, dep, addresses, less, a, configs) && KeysExtend(more, less)
    ensures Computed(settings, dep, addresses, more, a, configs)
  {
    hide LinkConfig, KeysExtend;
    forall b | b in configs
      ensures LinkConfig(settings, dep, addresses, more, a, b) == Ok(configs[b])
    {
      ConfigStable(settings, dep, addresses, less, more, a, b);
    }
  }

  lemma ComputedHasKeys(settings: Settings, dep: LinksMap, addresses: map<int, Option<string>>,
                        keys: PairKeys, a: int, configs: map<int, WireGuardConfig>, b: int)
    requires Computed(settings, dep, addresses, keys, a, configs) && b in configs
    ensures PairKey(a, b) in keys.pairs && PairKey(a, b) in keys.psks && a in addresses && b in addresses
  {
  }

  // assert_keys(): compiling every cell's configurations never fails on a
  // symmetric deployment, and later key generation does not invalidate them.
  method ConfigureAll(vpn: P2pVpnConfig, cells: set<int>) returns (configs: Configs)
    requires vpn.keymat.Valid() && !vpn.keymat.readonly
    requires forall a :: a in cells ==> vpn.Resolvable(a)
    modifies vpn.keymat`pairs, vpn.keymat`psks, vpn.keymat`drawn
    ensures vpn.keymat.Valid() && configs.Keys == cells
    ensures forall a :: a in cells ==>
              Computed(vpn.settings, vpn.deployment, vpn.addresses, vpn.keymat.View(), a, configs[a])
  {
    hide Computed, LinkConfig, KeysExtend, P2pKeyMaterial.Valid, P2pVpnConfig.Resolvable;
    configs := map[];
    var rest := cells;
    while rest != {}
      invariant rest <= cells && configs.Keys == cells - rest
      invariant vpn.keymat.Valid()
      invariant forall a :: a in configs ==>
                  Computed(vpn.settings, vpn.deployment, vpn.addresses, vpn.keymat.View(), a, configs[a])
      decreases rest
    {
      var a := PickRandom(rest);
      ghost var before := vpn.keymat.View();
      var r := vpn.PeerConfig(a);
      forall c | c in configs
        ensures Computed(vpn.settings, vpn.deployment, vpn.addresses, vpn.keymat.View(), c, configs[c])
      {
        ComputedStable(vpn.settings, vpn.deployment, vpn.addresses, before, vpn.keymat.View(), c, configs[c]);
      }
      assert Computed(vpn.settings, vpn.deployment, vpn.addresses, vpn.keymat.View(), a, r.value) by {
        ComputedIntro(vpn.settings, vpn.deployment, vpn.addresses, vpn.keymat.View(), a, r.value);
      }
      configs := configs[a := r.value];
      rest := rest - {a};
    }
  }

  lemma ComputedIntro(settings: Settings, dep: LinksMap, addresses: map<int, Option<string>>,
                      keys: PairKeys, a: int, configs: map<int, WireGuardConfig>)
    requires configs.Keys == (if a in dep then dep[a].peers.Keys else {})
    requires forall b :: b in configs ==> LinkConfig(settings, dep, addresses, keys, a, b) == Ok(configs[b])
    ensures Computed(settings, dep, addresses, keys, a, configs)
  {
  }

  // The configurations of all cells match the graph, and the two of every link mirror each other.
  ghost predicate MirrorsGraph(publicOf: int -> int, g: Graph, configs: Configs) {
    forall a :: a in g ==>
      && a in configs && configs[a].Keys == g[a]
      && forall b :: b in g[a] ==>
           b in configs && a in configs[b] && Mirrored(publicOf, configs[a][b], configs[b][a])
  }

  lemma LinkOfGraphMirrors(settings: Settings, rows: seq<Row>, g: Graph, al: Allocation,
                           addresses: map<int, Option<string>>, keys: PairKeys, publicOf: int -> int,
                           configs: Configs, a: int, b: int)
    requires Simple(rows) && Presents(rows, g) && Mutual(g) && NoPrivateEdges(g, PrivateCells(addresses))
    requires Inv(al) && LinkPairs(rows) <= al.links.Keys
    requires AllMatching(publicOf, keys) && AllPrivate(keys)
    requires a in g && b in g[a] && a in configs && b in configs && g.Keys <= addresses.Keys
    requires Computed(settings, Table(rows, al.links), addresses, keys, a, configs[a])
    requires Computed(settings, Table(rows, al.links), addresses, keys, b, configs[b])
    ensures b in configs[a] && a in configs[b] && Mirrored(publicOf, configs[a][b], configs[b][a])
  {
    hide Simple, LinkPairs, Table, Mirrored, AllMatching, AllPrivate, LinkConfig;
    assert b in g && a in g[b];
    assert a !in PrivateCells(addresses) || b !in PrivateCells(addresses);
    DeployedKeys(rows, g, al.links);
    var i, j := DeployedLink(rows, g, al.links, a, b);
    ComputedHasKeys(settings, Table(rows, al.links), addresses, keys, a, configs[a], b);
    LinkBlock(al, PairKey(a, b));
    hide Inv, Presents, Mutual, NoPrivateEdges, EndsOf;
    LinkMirrors(settings, Table(rows, al.links), al.links, addresses, keys, publicOf, a, b, i, j);
  }

  lemma LinkBlock(al: Allocation, k: Pair)
    requires Inv(al) && k in al.links
    ensures var l := al.links[k];
            l.addresses.0 % 2 == 0 && l.addresses.1 == l.addresses.0 + 1 && l.net == Network(l.addresses.0, 31)
  {
    hide Capacity, Network.Valid;
  }

  lemma GraphResolves(rows: seq<Row>, g: Graph, links: map<Pair, Link>, addresses: map<int, Option<string>>,
                      a: int, b: int)
    requires Simple(rows) && Presents(rows, g) && Mutual(g) && LinkPairs(rows) <= links.Keys
    requires g.Keys == addresses.Keys && a in g
    requires a in Table(rows, links) && b in Table(rows, links)[a].peers
    ensures b in Table(rows, links) && a in Table(rows, links)[b].peers && b in addresses
  {
    DeployedKeys(rows, g, links);
    hide Simple, Presents, LinkPairs, Table;
    assert b in g[a];
  }

  ghost predicate IsEnd(g: Graph, a: int, b: int) {
    a in g && b in g[a]
  }

  // Each end is configured from the two addresses of its link.
  ghost predicate EndsProper(settings: Settings, subnet: Network, addresses: map<int, Option<string>>, g: Graph,
                             configs: Configs)
    requires subnet.Valid()
  {
    forall a, b :: IsEnd(g, a, b) ==>
      && a in addresses && b in addresses && a in configs && b in configs[a]
      && EndProper(settings, subnet, addresses[a], addresses[b], b, |g[a]|, configs[a][b])
  }

  // No two ends share an address or a private key, only the two of a link share a
  // preshared key, and on one cell no two share an interface or a listening port.
  ghost predicate Apart(own: Option<string>, a: int, b: int, c: int, d: int, e: WireGuardConfig, f: WireGuardConfig) {
    && e.intf.address != f.intf.address
    && e.intf.privkey != f.intf.privkey
    && ({a, b} != {c, d} ==> e.peer.psk != f.peer.psk)
    && (a == c ==> e.intf.index != f.intf.index)
    && (a == c && HasAddress(own) ==> e.intf.port != f.intf.port)
  }

  ghost predicate EndsApart(addresses: map<int, Option<string>>, g: Graph, configs: Configs) {
    forall a, b, c, d :: IsEnd(g, a, b) && IsEnd(g, c, d) && (a, b) != (c, d) ==>
      && a in addresses && a in configs && b in configs[a] && c in configs && d in configs[c]
      && Apart(addresses[a], a, b, c, d, configs[a][b], configs[c][d])
  }

  // The deployed port of an end.
  lemma EndPort(rows: seq<Row>, g: Graph, al: Allocation, a: int, b: int)
    requires Simple(rows) && Presents(rows, g) && Mutual(g) && Inv(al) && LinkPairs(rows) <= al.links.Keys
    requires IsEnd(g, a, b)
    ensures var dep := Table(rows, al.links);
            && a != b && PairKey(a, b) in al.links
            && a in dep && b in dep[a].peers && 0 <= dep[a].peers[b].index < |g[a]|
            && dep[a].peers[b].local == Pick(a, b, a, al.links[PairKey(a, b)].addresses)
            && al.subnet.prefix <= 32 && al.subnet.Contains(dep[a].peers[b].local)
  {
    LinkedAddress(rows, g, al, a, b);
    hide Simple, LinkPairs, Table, Values, Inv, Mutual;
    assert Names(rows, a);
    var n :| 0 <= n < |rows| && rows[n].id == a;
    SimpleIsListed(rows, n);
    DeployRefinesPlan(rows, al.links, n);
    hide Presents, Listed;
    PortCount(rows, g, n);
  }

  lemma LinkedAddress(rows: seq<Row>, g: Graph, al: Allocation, a: int, b: int)
    requires Simple(rows) && Presents(rows, g) && Mutual(g) && Inv(al) && LinkPairs(rows) <= al.links.Keys
    requires IsEnd(g, a, b)
    ensures var dep := Table(rows, al.links);
            && a != b && PairKey(a, b) in al.links && a in dep && b in dep[a].peers
            && dep[a].peers[b].local == Pick(a, b, a, al.links[PairKey(a, b)].addresses)
            && al.subnet.prefix <= 32 && al.subnet.Contains(dep[a].peers[b].local)
  {
    hide Simple, Presents, LinkPairs, Table, Inv;
    var i, j := DeployedLink(rows, g, al.links, a, b);
    LinkInside(al, PairKey(a, b));
    assert al.subnet.prefix <= 32 by {
      ValidSubnet(al);
    }
  }

  lemma ValidSubnet(al: Allocation)
    requires Inv(al)
    ensures al.subnet.Valid()
  {
  }

  lemma PortCount(rows: seq<Row>, g: Graph, n: int)
    requires Simple(rows) && Presents(rows, g) && 0 <= n < |rows|
    ensures rows[n].id in g && |rows[n].ports| == |g[rows[n].id]|
  {
    hide Values;
    assert RowSimple(rows, rows[n]);
    ValuesSize(rows[n].ports);
  }

  lemma EndsProperAll(settings: Settings, rows: seq<Row>, g: Graph, al: Allocation,
                      addresses: map<int, Option<string>>, keys: PairKeys, configs: Configs)
    requires Simple(rows) && Presents(rows, g) && Mutual(g) && Inv(al) && LinkPairs(rows) <= al.links.Keys
    requires al.subnet.Valid() && g.Keys <= configs.Keys
    requires forall a :: a in g ==> Computed(settings, Table(rows, al.links), addresses, keys, a, configs[a])
    ensures EndsProper(settings, al.subnet, addresses, g, configs)
  {
    assert al.subnet.prefix <= 32;
    hide Simple, Presents, Mutual, LinkPairs, Table, Inv, EndProper, Computed, Network.Valid;
    forall a, b | IsEnd(g, a, b)
      ensures a in addresses && b in addresses && b in configs[a]
      ensures EndProper(settings, al.subnet, addresses[a], addresses[b], b, |g[a]|, configs[a][b])
    {
      EndIsProper(settings, rows, g, al, addresses, keys, a, b, configs[a]);
    }
  }

  lemma EndIsProper(settings: Settings, rows: seq<Row>, g: Graph, al: Allocation,
                    addresses: map<int, Option<string>>, keys: PairKeys, a: int, b: int,
                    configs: map<int, WireGuardConfig>)
    requires Simple(rows) && Presents(rows, g) && Mutual(g) && Inv(al) && LinkPairs(rows) <= al.links.Keys
    requires al.subnet.prefix <= 32 && IsEnd(g, a, b)
    requires Computed(settings, Table(rows, al.links), addresses, keys, a, configs)
    ensures a in addresses && b in addresses && b in configs
    ensures EndProper(settings, al.subnet, addresses[a], addresses[b], b, |g[a]|, configs[b])
  {
    hide Simple, Presents, Mutual, LinkPairs, Table, Inv, EndProper, LinkConfig, Network.Valid;
    EndPort(rows, g, al, a, b);
    var dep := Table(rows, al.links);
    assert LinkConfig(settings, dep, addresses, keys, a, b) == Ok(configs[b]);
    ConfigProper(settings, al.subnet, dep, addresses, keys, a, b, |g[a]|);
  }

  // The keys of an end, by its link and its side of it.
  lemma ConfigKeys(settings: Settings, dep: LinksMap, addresses: map<int, Option<string>>, keys: PairKeys,
                   a: int, b: int)
    requires a in dep && b in dep[a].peers && LinkConfig(settings, dep, addresses, keys, a, b).Ok?
    ensures PairKey(a, b) in keys.pairs && PairKey(a, b) in keys.psks
    ensures var c := LinkConfig(settings, dep, addresses, keys, a, b).value;
            && c.intf.privkey == HalfAt(keys, PairKey(a, b), PairKey(a, b).0 != a).private
            && c.peer.psk == keys.psks[PairKey(a, b)]
            && c.intf.index == dep[a].peers[b].index && c.intf.address == dep[a].peers[b].local
  {
  }

  lemma KeysApart(keys: PairKeys, drawn: set<int>, a: int, b: int, c: int, d: int)
    requires AllPrivate(keys) && Unreused(keys, drawn) && a != b && c != d && (a, b) != (c, d)
    requires PairKey(a, b) in keys.pairs && PairKey(c, d) in keys.pairs
    requires PairKey(a, b) in keys.psks && PairKey(c, d) in keys.psks
    ensures HalfAt(keys, PairKey(a, b), PairKey(a, b).0 != a).private !=
            HalfAt(keys, PairKey(c, d), PairKey(c, d).0 != c).private
    ensures {a, b} != {c, d} ==> keys.psks[PairKey(a, b)] != keys.psks[PairKey(c, d)]
  {
    PairKeyIdentifies(a, b, c, d);
    var k, m := PairKey(a, b), PairKey(c, d);
    var i, j := k.0 != a, m.0 != c;
    assert (k, i) != (m, j);
    assert HalfAt(keys, k, i).private.Some?;
  }

  lemma EndsDiffer(settings: Settings, rows: seq<Row>, g: Graph, al: Allocation, addresses: map<int, Option<string>>,
                   keys: PairKeys, drawn: set<int>, a: int, b: int, c: int, d: int,
                   e: WireGuardConfig, f: WireGuardConfig)
    requires Simple(rows) && Presents(rows, g) && Mutual(g) && Inv(al) && LinkPairs(rows) <= al.links.Keys
    requires AllPrivate(keys) && Unreused(keys, drawn)
    requires IsEnd(g, a, b) && IsEnd(g, c, d) && (a, b) != (c, d)
    requires var dep := Table(rows, al.links);
             && a in dep && b in dep[a].peers && LinkConfig(settings, dep, addresses, keys, a, b) == Ok(e)
             && c in dep && d in dep[c].peers && LinkConfig(settings, dep, addresses, keys, c, d) == Ok(f)
    ensures e.intf.address != f.intf.address && e.intf.privkey != f.intf.privkey
    ensures {a, b} != {c, d} ==> e.peer.psk != f.peer.psk
    ensures a == c ==> e.intf.index != f.intf.index
  {
    hide Simple, Presents, Mutual, LinkPairs, Table, Inv, LinkConfig, AllPrivate, Unreused, HalfAt, Pick;
    var dep := Table(rows, al.links);
    EndPort(rows, g, al, a, b);
    EndPort(rows, g, al, c, d);
    ConfigKeys(settings, dep, addresses, keys, a, b);
    ConfigKeys(settings, dep, addresses, keys, c, d);
    KeysApart(keys, drawn, a, b, c, d);
    if a == c {
      SameCellApart(rows, g, al, a, b, d);
    } else {
      CellsShareNoAddress(al, a, b, c, d);
    }
  }

  lemma SameCellApart(rows: seq<Row>, g: Graph, al: Allocation, a: int, b: int, c: int)
    requires Simple(rows) && Presents(rows, g) && Inv(al) && LinkPairs(rows) <= al.links.Keys
    requires a in g && b in g[a] && c in g[a] && b != c
    ensures var dep := Table(rows, al.links);
            && a in dep && b in dep[a].peers && c in dep[a].peers
            && dep[a].peers[b].index != dep[a].peers[c].index && dep[a].peers[b].local != dep[a].peers[c].local
  {
    hide Simple, LinkPairs, Table, Inv, Values;
    assert Names(rows, a);
    var n :| 0 <= n < |rows| && rows[n].id == a;
    PortsAreDistinct(rows, al.links, al, n, b, c);
  }

  lemma EndsApartAll(settings: Settings, rows: seq<Row>, g: Graph, al: Allocation, addresses: map<int, Option<string>>,
                     keys: PairKeys, drawn: set<int>, configs: Configs)
    requires Simple(rows) && Presents(rows, g) && Mutual(g) && Inv(al) && LinkPairs(rows) <= al.links.Keys
    requires al.subnet.Valid() && AllPrivate(keys) && Unreused(keys, drawn) && g.Keys <= configs.Keys
    requires forall a :: a in g ==> Computed(settings, Table(rows, al.links), addresses, keys, a, configs[a])
    ensures EndsApart(addresses, g, configs)
  {
    hide Simple, Presents, Mutual, LinkPairs, Table, Inv, AllPrivate, Unreused, Apart, Network.Valid, Computed;
    EndsProperAll(settings, rows, g, al, addresses, keys, configs);
    hide EndsProper;
    forall a, b, c, d | IsEnd(g, a, b) && IsEnd(g, c, d) && (a, b) != (c, d)
      ensures a in addresses && b in configs[a] && d in configs[c]
      ensures Apart(addresses[a], a, b, c, d, configs[a][b], configs[c][d])
    {
      PairApart(settings, rows, g, al, addresses, keys, drawn, configs, a, b, c, d);
    }
  }

  lemma PairApart(settings: Settings, rows: seq<Row>, g: Graph, al: Allocation, addresses: map<int, Option<string>>,
                  keys: PairKeys, drawn: set<int>, configs: Configs, a: int, b: int, c: int, d: int)
    requires Simple(rows) && Presents(rows, g) && Mutual(g) && Inv(al) && LinkPairs(rows) <= al.links.Keys
    requires al.subnet.Valid() && AllPrivate(keys) && Unreused(keys, drawn) && g.Keys <= configs.Keys
    requires EndsProper(settings, al.subnet, addresses, g, configs)
    requires IsEnd(g, a, b) && IsEnd(g, c, d) && (a, b) != (c, d)
    requires Computed(settings, Table(rows, al.links), addresses, keys, a, configs[a])
    requires Computed(settings, Table(rows, al.links), addresses, keys, c, configs[c])
    ensures a in addresses && b in configs[a] && d in configs[c]
    ensures Apart(addresses[a], a, b, c, d, configs[a][b], configs[c][d])
  {
    hide Simple, Presents, Mutual, LinkPairs, Table, Inv, LinkConfig, AllPrivate, Unreused, EndProper, Apart,
         Network.Valid;
    var dep := Table(rows, al.links);
    EndPort(rows, g, al, a, b);
    EndPort(rows, g, al, c, d);
    EndsDiffer(settings, rows, g, al, addresses, keys, drawn, a, b, c, d, configs[a][b], configs[c][d]);
    PortsFollow(settings, al.subnet, addresses, g, configs, a, b, c, d);
  }

  // Distinct interfaces of an addressed cell listen on distinct ports.
  lemma PortsFollow(settings: Settings, subnet: Network, addresses: map<int, Option<string>>, g: Graph,
                    configs: Configs, a: int, b: int, c: int, d: int)
    requires subnet.Valid() && EndsProper(settings, subnet, addresses, g, configs) && IsEnd(g, a, b) && IsEnd(g, c, d)
    requires configs[a][b].intf.address != configs[c][d].intf.address
    requires configs[a][b].intf.privkey != configs[c][d].intf.privkey
    requires {a, b} != {c, d} ==> configs[a][b].peer.psk != configs[c][d].peer.psk
    requires a == c ==> configs[a][b].intf.index != configs[c][d].intf.index
    ensures Apart(addresses[a], a, b, c, d, configs[a][b], configs[c][d])
  {
    hide Network.Valid;
  }

  // A deployment is the table of a plan that presents the promised graph, over the
  // links of one allocator.
  ghost predicate Deployed(kind: Kind, cells: set<int>, private: set<int>, dep: LinksMap, rows: seq<Row>, g: Graph,
                           al: Allocation)
    requires private <= cells
  {
    && Promised(kind, cells, private, g)
    && Simple(rows) && Presents(rows, g)
    && Inv(al) && LinkPairs(rows) <= al.links.Keys
    && dep == Table(rows, al.links)
    && al.subnet.Valid()
  }

  lemma Deploys(kind: Kind, cells: set<int>, private: set<int>, dep: LinksMap, rows: seq<Row>, g: Graph, al: Allocation)
    requires private <= cells && Promised(kind, cells, private, g) && Simple(rows) && Presents(rows, g)
    requires Inv(al) && LinkPairs(rows) <= al.links.Keys && dep == Table(rows, al.links) && al.subnet.Valid()
    ensures Deployed(kind, cells, private, dep, rows, g, al)
  {
    hide Promised, Simple, Presents, Inv, LinkPairs, Table, Network.Valid;
  }

  // The allocator exists, and the links of the strategy fit in its subnet.  The counts
  // are those of the public and of the private cells.
  ghost predicate HasRoom(kind: Kind, public: nat, private: nat, subnet: Network)
    requires subnet.Valid() && !kind.Random?
  {
    subnet.base + 2 < ADDRESS_SPACE && (public == 0 || LinksNeeded(kind, public, private) <= Capacity(subnet))
  }

  // Why no backbone results: the allocator cannot be built, or deploying fails.
  ghost predicate NoBackbone(kind: Kind, cells: set<int>, private: set<int>, subnet: Network, error: Error, g: Graph)
    requires subnet.Valid() && private <= cells
  {
    || (subnet.base + 2 >= ADDRESS_SPACE && error == AddressOverflow)
    || (cells - private != {} && Failure(kind, cells, private, Capacity(subnet), error, g))
  }

  // Registry.redeploy: apart from the random strategy it fails exactly when the subnet is
  // too small for the counts of cells; a random graph may also not be found.
  method Redeploy(kind: Kind, addresses: map<int, Option<string>>, subnet: Network)
    returns (r: Result<LinksMap>, ghost rows: seq<Row>, ghost g: Graph, ghost al: Allocation)
    requires subnet.Valid()
    ensures r.Ok? && PrivateCells(addresses) == addresses.Keys ==> r.value == map[]
    ensures r.Ok? && PrivateCells(addresses) != addresses.Keys ==>
              && Deployed(kind, addresses.Keys, PrivateCells(addresses), r.value, rows, g, al) && al.subnet == subnet
              && |EdgePairs(g)| <= Capacity(subnet)
    ensures r.Err? ==> NoBackbone(kind, addresses.Keys, PrivateCells(addresses), subnet, r.error, g)
    ensures !kind.Random? ==>
              (r.Ok? <==> HasRoom(kind, |addresses.Keys - PrivateCells(addresses)|, |PrivateCells(addresses)|, subnet))
  {
    hide Connected, IsRingBackbone, FullMesh.MeshGraph, Inv, Regular, Network.Valid, Simple, Presents, Mutual,
         NoPrivateEdges, Capacity, LinkPairs, EdgePairs, LinkAllocator.View, Rows, Table, Promised,
         LinksNeeded, Failure, Deployed;
    rows, g, al := [], map[], Fresh(subnet);
    var cells := addresses.Keys;
    var private := PrivateCells(addresses);
    var net := LinkAllocator.New(subnet);
    if net.Err? {
      r := Err(net.error);
      return;
    }
    assert Inv(net.value.View()) && Regular(net.value.View()) by {
      FreshAllocator(net.value, subnet);
    }
    assert net.value.links == map[] && net.value.subnet == subnet by {
      FreshAllocator(net.value, subnet);
    }
    ghost var plan;
    r, plan, g := DeployStrategy(kind, cells, private, net.value);
    if r.Ok? && cells - private != {} {
      rows, al := Rows(plan), net.value.View();
      assert al.links == net.value.links && al.subnet == subnet by { ViewLinks(net.value); }
      Deploys(kind, cells, private, r.value, rows, g, al);
    }
  }

  // From addresses to mirrored configurations, for every strategy and every
  // random outcome.  Only the deployment can fail.
  method BackboneConfigs(kind: Kind, addresses: map<int, Option<string>>, subnet: Network, settings: Settings,
                         keymat: P2pKeyMaterial) returns (r: Result<Configs>, ghost g: Graph)
    requires subnet.Valid() && keymat.Valid() && !keymat.readonly
    modifies keymat`pairs, keymat`psks, keymat`drawn
    ensures r.Ok? ==> r.value.Keys == addresses.Keys
    ensures r.Ok? && !SomeAddress(addresses) ==> forall a :: a in r.value ==> r.value[a] == map[]
    ensures r.Ok? && SomeAddress(addresses) ==>
              && Promised(kind, addresses.Keys, PrivateCells(addresses), g)
              && MirrorsGraph(keymat.publicOf, g, r.value)
              && EndsProper(settings, subnet, addresses, g, r.value)
              && EndsApart(addresses, g, r.value)
              && |EdgePairs(g)| <= Capacity(subnet)
    ensures r.Err? ==> NoBackbone(kind, addresses.Keys, PrivateCells(addresses), subnet, r.error, g)
    ensures !kind.Random? ==>
              (r.Ok? <==> HasRoom(kind, |addresses.Keys - PrivateCells(addresses)|, |PrivateCells(addresses)|, subnet))
  {
    hide SomeAddress, EdgePairs, Capacity, NoBackbone, HasRoom, Promised, Deployed, MirrorsGraph,
         EndsProper, EndsApart, Computed, PrivateCells, Network.Valid, P2pKeyMaterial.Valid, P2pVpnConfig.Resolvable;
    var cells := addresses.Keys;
    ghost var private := PrivateCells(addresses);
    PublicMeansAddress(addresses);
    ghost var rows, al;
    var dep;
    dep, rows, g, al := Redeploy(kind, addresses, subnet);
    if dep.Err? {
      return Err(dep.error), g;
    }
    var vpn := new P2pVpnConfig(settings, dep.value, addresses, keymat);
    if private != cells {
      AllResolve(vpn, kind, rows, g, al);
    } else {
      NoneToResolve(vpn);
    }
    var configs := ConfigureAll(vpn, cells);
    if private != cells {
      DeployedMirrors(kind, settings, addresses, keymat, dep.value, rows, g, al, configs);
    } else {
      NothingDeployed(settings, addresses, keymat.View(), configs);
    }
    return Ok(configs), g;
  }

  lemma AllResolve(vpn: P2pVpnConfig, kind: Kind, rows: seq<Row>, g: Graph, al: Allocation)
    requires Deployed(kind, vpn.addresses.Keys, PrivateCells(vpn.addresses), vpn.deployment, rows, g, al)
    ensures forall a :: a in vpn.addresses ==> vpn.Resolvable(a)
  {
    hide Simple, Presents, Mutual, LinkPairs, Table, Inv, Connected, NoPrivateEdges;
    forall a | a in g
      ensures vpn.Resolvable(a)
    {
      DeployedKeys(rows, g, al.links);
      forall b | b in vpn.deployment[a].peers
        ensures b in vpn.deployment && a in vpn.deployment[b].peers && b in vpn.addresses
      {
        GraphResolves(rows, g, al.links, vpn.addresses, a, b);
      }
    }
  }

  lemma NoneToResolve(vpn: P2pVpnConfig)
    requires vpn.deployment == map[]
    ensures forall a :: vpn.Resolvable(a)
  {
  }

  lemma DeployedMirrors(kind: Kind, settings: Settings, addresses: map<int, Option<string>>, keymat: P2pKeyMaterial,
                        dep: LinksMap, rows: seq<Row>, g: Graph, al: Allocation, configs: Configs)
    requires Deployed(kind, addresses.Keys, PrivateCells(addresses), dep, rows, g, al)
    requires keymat.Valid() && !keymat.readonly && configs.Keys == addresses.Keys
    requires forall a :: a in configs ==> Computed(settings, dep, addresses, keymat.View(), a, configs[a])
    ensures Promised(kind, addresses.Keys, PrivateCells(addresses), g)
    ensures MirrorsGraph(keymat.publicOf, g, configs) && EndsApart(addresses, g, configs)
    ensures al.subnet.Valid() && EndsProper(settings, al.subnet, addresses, g, configs)
  {
    hide Simple, Presents, Mutual, NoPrivateEdges, LinkPairs, Table, Inv, Connected, MirrorsGraph, EndsApart,
         EndsProper, Computed, P2pKeyMaterial.Valid, AllMatching, AllPrivate, Unreused, Network.Valid;
    ValidMaterial(keymat);
    MirrorsAll(settings, rows, g, al, addresses, keymat.View(), keymat.publicOf, configs);
    EndsProperAll(settings, rows, g, al, addresses, keymat.View(), configs);
    EndsApartAll(settings, rows, g, al, addresses, keymat.View(), keymat.drawn, configs);
  }

  lemma NothingDeployed(settings: Settings, addresses: map<int, Option<string>>, keys: PairKeys, configs: Configs)
    requires forall a :: a in configs ==> Computed(settings, map[], addresses, keys, a, configs[a])
    ensures forall a :: a in configs ==> configs[a] == map[]
  {
    forall a | a in configs
      ensures configs[a] == map[]
    {
      assert Computed(settings, map[], addresses, keys, a, configs[a]);
    }
  }

  // With the default subnet, a full mesh of public cells works exactly up to 64 cells.
  lemma DefaultMesh(public: nat)
    ensures FullMesh.DEFAULT_SUBNET.Valid()
    ensures HasRoom(FullMesh, public, 0, FullMesh.DEFAULT_SUBNET) <==> public <= 64
  {
    FullMesh.DefaultCapacity();
    FullMesh.TriangleClosed(public);
    FullMesh.SquareBound(public);
    hide Capacity, Network.Valid;
    assert FullMesh.Triangle(0) == 0;
  }

  // A crossed backbone of public cells has room there exactly up to 1365 cells, a circular
  // one up to 2047.
  lemma DefaultRings(public: nat)
    ensures FullMesh.DEFAULT_SUBNET.Valid()
    ensures HasRoom(Crossed, public, 0, FullMesh.DEFAULT_SUBNET) <==> public <= 1365
    ensures HasRoom(Circular, public, 0, FullMesh.DEFAULT_SUBNET) <==> public <= 2047
  {
    FullMesh.DefaultCapacity();
    hide Capacity, Network.Valid;
  }

  lemma FreshAllocator(net: LinkAllocator, subnet: Network)
    requires net.View() == Fresh(subnet) && Regular(net.View())
    ensures Inv(net.View()) && net.links == map[] && net.subnet == subnet
  {
  }

  lemma ViewLinks(net: LinkAllocator)
    ensures net.View().links == net.links && net.View().subnet == net.subnet
  {
  }

  lemma ValidMaterial(keymat: P2pKeyMaterial)
    requires keymat.Valid() && !keymat.readonly
    ensures AllMatching(keymat.publicOf, keymat.View()) && AllPrivate(keymat.View())
    ensures Unreused(keymat.View(), keymat.drawn)
  {
    hide AllMatching, AllPrivate, Unreused;
  }

  lemma MirrorsAll(settings: Settings, rows: seq<Row>, g: Graph, al: Allocation, addresses: map<int, Option<string>>,
                   keys: PairKeys, publicOf: int -> int, configs: Configs)
    requires Simple(rows) && Presents(rows, g) && Mutual(g) && NoPrivateEdges(g, PrivateCells(addresses))
    requires Inv(al) && LinkPairs(rows) <= al.links.Keys
    requires AllMatching(publicOf, keys) && AllPrivate(keys)
    requires g.Keys == addresses.Keys == configs.Keys
    requires forall a :: a in g ==> Computed(settings, Table(rows, al.links), addresses, keys, a, configs[a])
    ensures MirrorsGraph(publicOf, g, configs)
  {
    hide Simple, Presents, LinkPairs, Table, Mirrored, AllMatching, AllPrivate, Inv, LinkConfig, NoPrivateEdges;
    DeployedKeys(rows, g, al.links);
    forall a | a in g
      ensures configs[a].Keys == g[a]
    {
      assert Computed(settings, Table(rows, al.links), addresses, keys, a, configs[a]);
    }
    hide Computed;
    forall a, b | a in g && b in g[a]
      ensures b in configs && a in configs[b] && b in configs[a] && Mirrored(publicOf, configs[a][b], configs[b][a])
    {
      assert b in g;
      LinkOfGraphMirrors(settings, rows, g, al, addresses, keys, publicOf, configs, a, b);
    }
  }
}
